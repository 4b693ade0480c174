/**
 The tag-length-value layout of an EMVCo QR payload: how it is built, how the
 two parsers walk it, and what they can find in it. Strings are byte strings.
 */
module Tlv {
  import opened Common

  /** One element of a payload: two tag characters, the length column, the value. */
  datatype Field = Field(tag: string, length: string, value: string)

  /** How the two characters of a length column are read. */
  type Scanner = string -> int

  datatype Outcome = Found(token: string) | NotFound | TooShort | Panics

  // ---------- Numbers ----------

  function Decimal(n: nat): (s: string)
    ensures |s| >= if n < 10 then 1 else if n < 100 then 2 else 3
    ensures n < 10 ==> |s| == 1
    ensures 10 <= n < 100 ==> |s| == 2
  {
    if n < 10 then ["0123456789"[n]] else Decimal(n / 10) + ["0123456789"[n % 10]]
  }

  /** The format `%02d`. */
  function Two(n: nat): (s: string)
    ensures |s| == 2 <==> n < 100
  {
    if n < 10 then "0" + Decimal(n) else Decimal(n)
  }

  /** The scanner reads two decimal digits as the number they denote; on anything else it may do as it likes. */
  ghost predicate ReadsDigits(scan: Scanner) {
    forall n: nat :: n < 100 ==> scan(Two(n)) == n
  }

  function HexDigit(n: nat): char
    requires n < 16
  {
    "0123456789ABCDEF"[n]
  }

  /** The format `%04X` of a 16-bit number. */
  function Hex4(n: nat): (s: string)
    ensures |s| == 4
  {
    [HexDigit(n / 16 / 16 / 16 % 16), HexDigit(n / 16 / 16 % 16), HexDigit(n / 16 % 16), HexDigit(n % 16)]
  }

  // ---------- Reading numbers back ----------

  /** What a digit is worth, by its character code; upper-case letters go on from ten. */
  function DigitValue(c: char): int {
    if '0' <= c <= '9' then c as int - '0' as int
    else if 'A' <= c <= 'F' then c as int - 'A' as int + 10
    else 0
  }

  /** The number that the digits `s` denote in `base`, the most significant digit first. */
  function ReadIn(base: nat, s: string): int {
    if s == "" then 0 else ReadIn(base, s[..|s| - 1]) * base + DigitValue(s[|s| - 1])
  }

  predicate DecimalDigits(s: string) {
    forall c :: c in s ==> '0' <= c <= '9'
  }

  predicate UpperHexDigits(s: string) {
    forall c :: c in s ==> '0' <= c <= '9' || 'A' <= c <= 'F'
  }

  lemma ReadSnoc(base: nat, s: string, c: char)
    ensures ReadIn(base, s + [c]) == ReadIn(base, s) * base + DigitValue(c)
  {
    assert (s + [c])[..|s|] == s;
  }

  lemma ReadOne(base: nat, c: char)
    ensures ReadIn(base, [c]) == DigitValue(c)
  {
    ReadSnoc(base, "", c);
    assert "" + [c] == [c];
  }

  /** A number is written with the digits that denote it, and without a leading zero. */
  lemma {:induction false} DecimalReads(n: nat)
    ensures ReadIn(10, Decimal(n)) == n && DecimalDigits(Decimal(n))
    ensures n >= 10 ==> Decimal(n)[0] != '0'
    ensures n > 0 ==> Decimal(n)[0] != '0'
  {
    var c := "0123456789"[n % 10];
    if n < 10 {
      ReadOne(10, c);
    } else {
      DecimalReads(n / 10);
      ReadSnoc(10, Decimal(n / 10), c);
    }
  }

  /** The length column: decimal digits, two of them where two are enough. */
  lemma TwoReads(n: nat)
    ensures ReadIn(10, Two(n)) == n && DecimalDigits(Two(n)) && |Two(n)| >= 2
    ensures n >= 100 ==> Two(n)[0] != '0'
  {
    DecimalReads(n);
    if n < 10 {
      ReadOne(10, '0');
      ReadSnoc(10, "0", Decimal(n)[0]);
      ReadOne(10, Decimal(n)[0]);
      assert Two(n) == "0" + [Decimal(n)[0]];
    }
  }

  lemma HexDigitValue(n: nat)
    requires n < 16
    ensures DigitValue(HexDigit(n)) == n && UpperHexDigits([HexDigit(n)])
  {
  }

  lemma FourRead(a: char, b: char, c: char, d: char)
    ensures ReadIn(16, [a, b, c, d]) == ((DigitValue(a) * 16 + DigitValue(b)) * 16 + DigitValue(c)) * 16 + DigitValue(d)
  {
    ReadOne(16, a);
    ReadSnoc(16, [a], b);
    ReadSnoc(16, [a, b], c);
    ReadSnoc(16, [a, b, c], d);
    assert [a] + [b] == [a, b] && [a, b] + [c] == [a, b, c] && [a, b, c] + [d] == [a, b, c, d];
  }

  lemma Sixteenths(n: nat)
    ensures n == n / 16 * 16 + n % 16 && n % 16 < 16
  {
  }

  lemma Quarters(n: nat)
    requires n < 65536
    ensures n / 16 < 4096 && n / 16 / 16 < 256 && n / 16 / 16 / 16 < 16
  {
    assert n / 16 < 4096;
    assert n / 16 / 16 < 256;
  }

  lemma FourDigitValues(a: nat, b: nat, c: nat, d: nat)
    requires a < 16 && b < 16 && c < 16 && d < 16
    ensures var s := [HexDigit(a), HexDigit(b), HexDigit(c), HexDigit(d)];
            ReadIn(16, s) == ((a * 16 + b) * 16 + c) * 16 + d && UpperHexDigits(s)
  {
    HexDigitValue(a);
    HexDigitValue(b);
    HexDigitValue(c);
    HexDigitValue(d);
    FourRead(HexDigit(a), HexDigit(b), HexDigit(c), HexDigit(d));
  }

  /** Four upper-case hexadecimal digits that denote the number. */
  lemma Hex4Reads(n: nat)
    requires n < 65536
    ensures ReadIn(16, Hex4(n)) == n && UpperHexDigits(Hex4(n))
  {
    var x, y, z := n / 16, n / 16 / 16, n / 16 / 16 / 16;
    Quarters(n);
    Sixteenths(n);
    Sixteenths(x);
    Sixteenths(y);
    Small(z);
    FourDigitValues(z % 16, y % 16, x % 16, n % 16);
  }

  lemma Small(z: nat)
    requires z < 16
    ensures z % 16 == z
  {
  }

  // ---------- Text and walk ----------

  function Text(f: Field): string {
    f.tag + f.length + f.value
  }

  function TextAll(fields: seq<Field>): string {
    if fields == [] then "" else Text(fields[0]) + TextAll(fields[1..])
  }

  predicate WellFormed(scan: Scanner, f: Field) {
    |f.tag| == 2 && |f.length| == 2 && scan(f.length) == |f.value|
  }

  predicate AllWellFormed(scan: Scanner, fields: seq<Field>) {
    forall i :: 0 <= i < |fields| ==> WellFormed(scan, fields[i])
  }

  /** What a walk visits, the index it stops at, and whether a negative length made it slice backwards. */
  datatype Walked = Walked(fields: seq<Field>, end: nat, panics: bool)

  /** The walk of both parsers from index `i`; the outer one stops `slack` characters before the end. */
  function Walk(scan: Scanner, s: string, i: nat, slack: nat): Walked
    requires i <= |s|
    decreases |s| - i
  {
    if i >= |s| - slack || i + 4 > |s| || i + 4 + scan(s[i + 2..i + 4]) > |s| then Walked([], i, false)
    else
      var n := scan(s[i + 2..i + 4]);
      if n < 0 then Walked([], i, true)
      else
        var rest := Walk(scan, s, i + 4 + n, slack);
        rest.(fields := [FieldAt(s, i, n)] + rest.fields)
  }

  function FieldAt(s: string, i: nat, n: nat): Field
    requires i + 4 + n <= |s|
  {
    Field(s[i..i + 2], s[i + 2..i + 4], s[i + 4..i + 4 + n])
  }

  lemma SplitField(s: string, i: nat, n: nat, end: nat)
    requires i + 4 + n <= end <= |s|
    ensures s[i..end] == Text(FieldAt(s, i, n)) + s[i + 4 + n..end]
  {
  }

  /** On any input the walk only moves forward, stays in bounds, and skips nothing. */
  lemma {:induction false} WalkCovers(scan: Scanner, s: string, i: nat, slack: nat)
    requires i <= |s|
    ensures var w := Walk(scan, s, i, slack);
            && i + 4 * |w.fields| <= w.end <= |s|
            && AllWellFormed(scan, w.fields)
            && s[i..w.end] == TextAll(w.fields)
    decreases |s| - i
  {
    var w := Walk(scan, s, i, slack);
    if w.fields != [] {
      var n := scan(s[i + 2..i + 4]);
      WalkCovers(scan, s, i + 4 + n, slack);
      assert w.fields[1..] == Walk(scan, s, i + 4 + n, slack).fields;
      SplitField(s, i, n, w.end);
    }
  }

  /** The walk slices backwards exactly when it comes to a length column that reads as negative. */
  lemma {:induction false} PanicsOnNegative(scan: Scanner, s: string, i: nat, slack: nat)
    requires i <= |s|
    ensures var w := Walk(scan, s, i, slack);
            w.panics <==> i <= w.end < |s| - slack && w.end + 4 <= |s| && scan(s[w.end + 2..w.end + 4]) < 0
    decreases |s| - i
  {
    var w := Walk(scan, s, i, slack);
    if w.fields != [] {
      var j := i + 4 + scan(s[i + 2..i + 4]);
      PanicsOnNegative(scan, s, j, slack);
      WalkCovers(scan, s, j, slack);
    }
  }

  lemma HeadAt(s: string, i: nat, f: Field, rest: string)
    requires i <= |s| && s[i..] == Text(f) + rest
    requires |f.tag| == 2 && |f.length| == 2
    ensures i + 4 + |f.value| <= |s|
    ensures FieldAt(s, i, |f.value|) == f
    ensures s[i + 2..i + 4] == f.length
    ensures s[i + 4 + |f.value|..] == rest
  {
    var t := s[i..];
    assert t[..2] == f.tag && t[2..4] == f.length && t[4..4 + |f.value|] == f.value && t[4 + |f.value|..] == rest;
    assert s[i..i + 2] == t[..2] && s[i + 2..i + 4] == t[2..4];
    assert s[i + 4..i + 4 + |f.value|] == t[4..4 + |f.value|];
  }

  /** What a walk with `slack` visits of `fields`: everything, except that slack loses a last empty value. */
  function Visible(fields: seq<Field>, slack: nat): seq<Field> {
    if fields != [] && slack == 4 && fields[|fields| - 1].value == "" then fields[..|fields| - 1] else fields
  }

  lemma VisibleStep(fields: seq<Field>, slack: nat)
    requires fields != [] && (slack == 0 || slack == 4)
    ensures Visible(fields, slack) == if fields[1..] == [] && slack == 4 && fields[0].value == "" then []
                                      else [fields[0]] + Visible(fields[1..], slack)
  {
  }

  lemma {:induction false} WalkVisits(scan: Scanner, s: string, i: nat, slack: nat, fields: seq<Field>)
    requires i <= |s| && (slack == 0 || slack == 4)
    requires AllWellFormed(scan, fields) && s[i..] == TextAll(fields)
    ensures Walk(scan, s, i, slack).fields == Visible(fields, slack)
    ensures !Walk(scan, s, i, slack).panics
    ensures Visible(fields, slack) == fields ==> Walk(scan, s, i, slack).end == |s|
    decreases |fields|
  {
    if fields != [] {
      var f, rest := fields[0], fields[1..];
      var j := i + 4 + |f.value|;
      HeadAt(s, i, f, TextAll(rest));
      if rest != [] {
        HeadAt(s, j, rest[0], TextAll(rest[1..]));
      }
      WalkVisits(scan, s, j, slack, rest);
      VisibleStep(fields, slack);
    }
  }

  /** The inner walk inverts the layout: it visits `fields` up to the end if and only if the input is their text. */
  lemma WalkInvertsText(scan: Scanner, s: string, fields: seq<Field>)
    ensures Walk(scan, s, 0, 0) == Walked(fields, |s|, false) <==> s == TextAll(fields) && AllWellFormed(scan, fields)
  {
    WalkCovers(scan, s, 0, 0);
    assert s[0..|s|] == s && s[0..] == s;
    if s == TextAll(fields) && AllWellFormed(scan, fields) {
      WalkVisits(scan, s, 0, 0, fields);
    }
  }

  /** The outer walk sees all of a well-formed payload if and only if its last value is not empty. */
  lemma OuterSeesAll(scan: Scanner, fields: seq<Field>)
    requires AllWellFormed(scan, fields) && fields != []
    ensures Walk(scan, TextAll(fields), 0, 4).fields == fields <==> fields[|fields| - 1].value != ""
  {
    assert TextAll(fields)[0..] == TextAll(fields);
    WalkVisits(scan, TextAll(fields), 0, 4, fields);
  }

  // ---------- Encoding pairs ----------

  function Of(tag: string, value: string): Field {
    Field(tag, Two(|value|), value)
  }

  function Encoded(pairs: seq<(string, string)>): (fields: seq<Field>)
    ensures |fields| == |pairs|
    ensures forall i :: 0 <= i < |pairs| ==> fields[i] == Of(pairs[i].0, pairs[i].1)
  {
    if pairs == [] then [] else [Of(pairs[0].0, pairs[0].1)] + Encoded(pairs[1..])
  }

  predicate Encodable(pairs: seq<(string, string)>) {
    forall i :: 0 <= i < |pairs| ==> |pairs[i].0| == 2 && |pairs[i].1| <= 99
  }

  lemma OfWellFormed(scan: Scanner, tag: string, value: string)
    requires ReadsDigits(scan) && |tag| == 2 && |value| <= 99
    ensures WellFormed(scan, Of(tag, value))
  {
    assert scan(Two(|value|)) == |value|;
  }

  /** Any list of two-character tags with values of at most 99 characters is walked back exactly. */
  lemma RoundTrip(scan: Scanner, pairs: seq<(string, string)>)
    requires ReadsDigits(scan) && Encodable(pairs)
    ensures Walk(scan, TextAll(Encoded(pairs)), 0, 0) == Walked(Encoded(pairs), |TextAll(Encoded(pairs))|, false)
  {
    var fields := Encoded(pairs);
    forall i | 0 <= i < |fields| ensures WellFormed(scan, fields[i]) {
      OfWellFormed(scan, pairs[i].0, pairs[i].1);
    }
    WalkInvertsText(scan, TextAll(fields), fields);
  }

  function ReadTwo(s: string): int {
    if |s| == 2 then 10 * DigitValue(s[0]) + DigitValue(s[1]) else 0
  }

  lemma ReadTwoReads()
    ensures ReadsDigits(ReadTwo)
  {
    forall n: nat | n < 100 ensures ReadTwo(Two(n)) == n {
      assert n >= 10 ==> Two(n) == Decimal(n / 10) + ["0123456789"[n % 10]];
      assert n >= 10 ==> Decimal(n / 10) == ["0123456789"[n / 10]];
      DigitReads(n / 10);
      DigitReads(n % 10);
    }
  }

  lemma DigitReads(d: nat)
    requires d < 10
    ensures DigitValue("0123456789"[d]) == d
  {
  }

  lemma EncodingInjective(ps: seq<(string, string)>, qs: seq<(string, string)>)
    requires Encodable(ps) && Encodable(qs)
    requires TextAll(Encoded(ps)) == TextAll(Encoded(qs))
    ensures ps == qs
  {
    ReadTwoReads();
    RoundTrip(ReadTwo, ps);
    RoundTrip(ReadTwo, qs);
    forall i | 0 <= i < |ps| ensures ps[i] == qs[i] {
      assert Encoded(ps)[i] == Encoded(qs)[i];
    }
  }

  // ---------- The parsers ----------
  //
  // `width` is the length of the slice compared with "token="; the source
  // compares seven characters with these six.

  predicate MarkerAt(width: nat, value: string, j: nat) {
    j + width <= |value| && value[j..j + width] == "token="
  }

  /** The index just after the first marker at or after `j`, or -1. */
  function TokenStart(width: nat, value: string, j: nat): int
    requires j <= |value|
    decreases |value| - j
  {
    if j == |value| then -1
    else if MarkerAt(width, value, j) then j + width
    else TokenStart(width, value, j + 1)
  }

  function TokenOf(width: nat, f: Field): Option<string> {
    if f.tag == "01" && |f.value| > 8 && f.value[..8] == "https://" then
      var start := TokenStart(width, f.value, 0);
      if 0 < start < |f.value| then Some(f.value[start..]) else None
    else None
  }

  function FirstToken(width: nat, fields: seq<Field>): Option<string> {
    if fields == [] then None
    else if TokenOf(width, fields[0]).Some? then TokenOf(width, fields[0])
    else FirstToken(width, fields[1..])
  }

  function InnerOutcome(width: nat, w: Walked): Outcome {
    match FirstToken(width, w.fields)
    case Some(token) => Found(token)
    case None => if w.panics then Panics else NotFound
  }

  predicate TokenMarkAt(value: string, j: int) {
    0 <= j && j + 6 <= |value| && value[j..j + 6] == "token="
  }

  /** At `at` stands the first "token=" of the value. */
  predicate FirstMarkAt(value: string, at: int) {
    TokenMarkAt(value, at) && forall j :: 0 <= j < at ==> !TokenMarkAt(value, j)
  }

  lemma {:induction false} StartIsFirst(value: string, from: nat)
    requires from <= |value| && forall j :: 0 <= j < from ==> !TokenMarkAt(value, j)
    ensures var start := TokenStart(6, value, from);
            if start == -1 then forall j :: !TokenMarkAt(value, j) else FirstMarkAt(value, start - 6)
    decreases |value| - from
  {
    if from < |value| && !MarkerAt(6, value, from) {
      StartIsFirst(value, from + 1);
    }
  }

  /**
   At six characters a field yields a token if and only if it is field 01 of an
   https link with a "token=" in it, and then it is the text after the first one.
   */
  lemma TokenExactly(f: Field, token: string)
    ensures TokenOf(6, f) == Some(token)
            <==> && f.tag == "01" && "https://" <= f.value && token != ""
                 && exists at :: FirstMarkAt(f.value, at) && f.value[at + 6..] == token
  {
    var start := TokenStart(6, f.value, 0);
    StartIsFirst(f.value, 0);
    forall at | FirstMarkAt(f.value, at) ensures at == start - 6 {
      assert TokenMarkAt(f.value, at);
    }
    if "https://" <= f.value {
      assert f.value[..8] == "https://";
      if |f.value| == 8 {
        LinkAlone(f.value);
      }
    }
  }

  /** The bare scheme contains no marker. */
  lemma LinkAlone(value: string)
    requires "https://" <= value && |value| == 8
    ensures forall j :: !TokenMarkAt(value, j)
  {
    assert value == "https://";
    forall j ensures !TokenMarkAt(value, j) {
      if 0 <= j && j + 6 <= 8 {
        assert value[j..j + 6][0] == value[j] && value[j..j + 6][1] == value[j + 1];
      }
    }
  }

  /** The first field that yields a token decides. */
  lemma {:induction false} FirstTokenExactly(width: nat, fields: seq<Field>, token: string)
    ensures FirstToken(width, fields) == Some(token)
            <==> exists k :: && 0 <= k < |fields| && TokenOf(width, fields[k]) == Some(token)
                             && forall j :: 0 <= j < k ==> TokenOf(width, fields[j]) == None
  {
    if fields != [] {
      FirstTokenExactly(width, fields[1..], token);
      if TokenOf(width, fields[0]) == None {
        if k :| && 0 <= k < |fields[1..]| && TokenOf(width, fields[1..][k]) == Some(token)
                && forall j :: 0 <= j < k ==> TokenOf(width, fields[1..][j]) == None {
          assert fields[k + 1] == fields[1..][k];
          assert forall j :: 0 < j < k + 1 ==> fields[j] == fields[1..][j - 1];
        }
        if k :| && 0 <= k < |fields| && TokenOf(width, fields[k]) == Some(token)
                && forall j :: 0 <= j < k ==> TokenOf(width, fields[j]) == None {
          assert fields[1..][k - 1] == fields[k];
          assert forall j :: 0 <= j < k - 1 ==> fields[1..][j] == fields[j + 1];
        }
      }
    }
  }

  method FindMarker(width: nat, value: string) returns (start: int)
    requires width > 0
    ensures start == TokenStart(width, value, 0)
  {
    start := -1;
    var j := 0;
    while j < |value|
      invariant 0 <= j <= |value|
      invariant TokenStart(width, value, 0) == TokenStart(width, value, j)
    {
      if j + (width - 1) < |value| && value[j..j + width] == "token=" {
        return j + width;
      }
      j := j + 1;
    }
  }

  method ParseTag26(scan: Scanner, width: nat, data: string) returns (r: Outcome)
    requires width > 0
    ensures r == InnerOutcome(width, Walk(scan, data, 0, 0))
  {
    var i := 0;
    while i < |data|
      invariant 0 <= i <= |data|
      invariant InnerOutcome(width, Walk(scan, data, 0, 0)) == InnerOutcome(width, Walk(scan, data, i, 0))
      decreases |data| - i
    {
      if i + 4 > |data| {
        break;
      }
      var tag := data[i..i + 2];
      var length := scan(data[i + 2..i + 4]);
      if i + 4 + length > |data| {
        break;
      }
      if length < 0 {
        return Panics;
      }
      var value := data[i + 4..i + 4 + length];
      ghost var w := Walk(scan, data, i, 0);
      assert w.fields[0] == FieldAt(data, i, length);
      assert w.fields[1..] == Walk(scan, data, i + 4 + length, 0).fields;
      if tag == "01" {
        if |value| > 8 && value[..8] == "https://" {
          var tokenStart := FindMarker(width, value);
          if tokenStart > 0 && tokenStart < |value| {
            return Found(value[tokenStart..]);
          }
        }
      }
      i := i + 4 + length;
    }
    return NotFound;
  }

  /** The first conclusive field 26, if any. */
  function FirstMerchant(scan: Scanner, width: nat, fields: seq<Field>): Outcome {
    if fields == [] then NotFound
    else if fields[0].tag == "26" && InnerOutcome(width, Walk(scan, fields[0].value, 0, 0)) != NotFound then
      InnerOutcome(width, Walk(scan, fields[0].value, 0, 0))
    else FirstMerchant(scan, width, fields[1..])
  }

  function OuterOutcome(scan: Scanner, width: nat, w: Walked): Outcome {
    var r := FirstMerchant(scan, width, w.fields);
    if r == NotFound && w.panics then Panics else r
  }

  method ParseEMVCoQR(scan: Scanner, width: nat, qrData: string) returns (r: Outcome)
    requires width > 0
    ensures r == if |qrData| < 10 then TooShort else OuterOutcome(scan, width, Walk(scan, qrData, 0, 4))
  {
    if |qrData| < 10 {
      return TooShort;
    }
    var i := 0;
    while i < |qrData| - 4
      invariant 0 <= i <= |qrData|
      invariant OuterOutcome(scan, width, Walk(scan, qrData, 0, 4))
                == OuterOutcome(scan, width, Walk(scan, qrData, i, 4))
      decreases |qrData| - i
    {
      if i + 4 > |qrData| {
        break;
      }
      var tag := qrData[i..i + 2];
      var length := scan(qrData[i + 2..i + 4]);
      if i + 4 + length > |qrData| {
        break;
      }
      if length < 0 {
        return Panics;
      }
      var value := qrData[i + 4..i + 4 + length];
      ghost var w := Walk(scan, qrData, i, 4);
      assert w.fields[0] == FieldAt(qrData, i, length);
      assert w.fields[1..] == Walk(scan, qrData, i + 4 + length, 4).fields;
      if tag == "26" {
        var inner := ParseTag26(scan, width, value);
        if inner != NotFound {
          return inner;
        }
      }
      i := i + 4 + length;
    }
    return NotFound;
  }

  lemma {:induction false} NoMarker(width: nat, value: string, j: nat)
    requires j <= |value| && width != 6
    ensures TokenStart(width, value, j) == -1
    decreases |value| - j
  {
    if j < |value| {
      NoMarker(width, value, j + 1);
    }
  }

  lemma {:induction false} NoToken(width: nat, fields: seq<Field>)
    requires width != 6
    ensures FirstToken(width, fields) == None
  {
    if fields != [] {
      NoMarker(width, fields[0].value, 0);
      NoToken(width, fields[1..]);
    }
  }

  /** With any slice width but six, seven included, no input whatsoever yields a token. */
  lemma {:induction false} TokenNeverFound(scan: Scanner, width: nat, w: Walked)
    requires width != 6
    ensures !OuterOutcome(scan, width, w).Found?
    decreases |w.fields|
  {
    if w.fields != [] {
      NoToken(width, Walk(scan, w.fields[0].value, 0, 0).fields);
      TokenNeverFound(scan, width, w.(fields := w.fields[1..]));
    }
  }

  // ---------- Negative length columns ----------

  /**
   After some well-formed fields, and more than `slack` characters from the end, a length
   column reads as negative.
   */
  ghost predicate NegativeAhead(scan: Scanner, s: string, slack: nat) {
    exists fields, rest: string ::
      AllWellFormed(scan, fields) && s == TextAll(fields) + rest && NegativeAt(scan, rest, slack)
  }

  predicate NegativeAt(scan: Scanner, rest: string, slack: nat) {
    |rest| >= 4 && |rest| > slack && scan(rest[2..4]) < 0
  }

  lemma ColumnAfter(s: string, front: string, rest: string)
    requires s == front + rest && |rest| >= 4
    ensures s[|front| + 2..|front| + 4] == rest[2..4]
  {
  }

  lemma Assoc(a: string, b: string, c: string)
    ensures (a + b) + c == a + (b + c)
  {
  }

  lemma WalkStep(scan: Scanner, s: string, i: nat, slack: nat, f: Field, rest: string)
    requires i <= |s| && WellFormed(scan, f) && s[i..] == Text(f) + rest && |Text(f) + rest| > slack
    ensures var j := i + |Text(f)|;
            && j <= |s| && s[j..] == rest
            && Walk(scan, s, i, slack) == Walk(scan, s, j, slack).(fields := [f] + Walk(scan, s, j, slack).fields)
  {
    HeadAt(s, i, f, rest);
    assert |Text(f)| == 4 + |f.value|;
  }

  /** Fields in front of a rest that is longer than the slack are all visited, and the walk comes to the rest. */
  lemma {:induction false} WalkReaches(scan: Scanner, s: string, i: nat, slack: nat, fields: seq<Field>, rest: string)
    requires i <= |s| && AllWellFormed(scan, fields) && s[i..] == TextAll(fields) + rest && |rest| > slack
    ensures var j := i + |TextAll(fields)|;
            && j <= |s| && s[j..] == rest
            && Walk(scan, s, i, slack) == Walk(scan, s, j, slack).(fields := fields + Walk(scan, s, j, slack).fields)
    decreases |fields|
  {
    if fields == [] {
      assert TextAll(fields) + rest == rest;
      assert [] + Walk(scan, s, i, slack).fields == Walk(scan, s, i, slack).fields;
    } else {
      var f, more := fields[0], fields[1..];
      Assoc(Text(f), TextAll(more), rest);
      WalkStep(scan, s, i, slack, f, TextAll(more) + rest);
      var j := i + |Text(f)|;
      WalkReaches(scan, s, j, slack, more, rest);
      var k := j + |TextAll(more)|;
      assert k == i + |TextAll(fields)|;
      Chain(Walk(scan, s, i, slack), Walk(scan, s, j, slack), Walk(scan, s, k, slack), f, more);
      assert [f] + more == fields;
    }
  }

  lemma Chain(first: Walked, second: Walked, third: Walked, f: Field, more: seq<Field>)
    requires first == second.(fields := [f] + second.fields) && second == third.(fields := more + third.fields)
    ensures first == third.(fields := ([f] + more) + third.fields)
  {
    assert [f] + (more + third.fields) == ([f] + more) + third.fields;
  }

  lemma NegativePanics(scan: Scanner, s: string, slack: nat, fields: seq<Field>, rest: string)
    requires AllWellFormed(scan, fields) && s == TextAll(fields) + rest && NegativeAt(scan, rest, slack)
    ensures Walk(scan, s, 0, slack).panics && Walk(scan, s, 0, slack).fields == fields
  {
    assert s[0..] == s;
    WalkReaches(scan, s, 0, slack, fields, rest);
    ColumnAfter(s, TextAll(fields), rest);
    assert Walk(scan, s, |TextAll(fields)|, slack) == Walked([], |TextAll(fields)|, true);
  }

  /**
   A walk from the start slices backwards if and only if the input is well-formed up to a
   length column that reads as negative.
   */
  lemma PanicsExactlyOnNegative(scan: Scanner, s: string, slack: nat)
    ensures Walk(scan, s, 0, slack).panics <==> NegativeAhead(scan, s, slack)
  {
    if NegativeAhead(scan, s, slack) {
      var fields, rest: string :| AllWellFormed(scan, fields) && s == TextAll(fields) + rest
                                  && NegativeAt(scan, rest, slack);
      NegativePanics(scan, s, slack, fields, rest);
    }
    var w := Walk(scan, s, 0, slack);
    WalkCovers(scan, s, 0, slack);
    PanicsOnNegative(scan, s, 0, slack);
    if w.panics {
      var rest := s[w.end..];
      assert s[0..w.end] == s[..w.end] && s == TextAll(w.fields) + rest;
      ColumnAfter(s, TextAll(w.fields), rest);
      assert NegativeAt(scan, rest, slack);
    }
  }

  /** A field 26 with a negative length column in its value. */
  ghost predicate BadMerchant(scan: Scanner, f: Field) {
    f.tag == "26" && NegativeAhead(scan, f.value, 0)
  }

  lemma {:induction false} MerchantPanics(scan: Scanner, width: nat, fields: seq<Field>)
    requires width != 6
    ensures FirstMerchant(scan, width, fields) == Panics
            <==> exists k :: 0 <= k < |fields| && BadMerchant(scan, fields[k])
    ensures FirstMerchant(scan, width, fields) in {Panics, NotFound}
  {
    if fields != [] {
      var f := fields[0];
      NoToken(width, Walk(scan, f.value, 0, 0).fields);
      PanicsExactlyOnNegative(scan, f.value, 0);
      MerchantPanics(scan, width, fields[1..]);
      if FirstMerchant(scan, width, fields[1..]) == Panics {
        var k :| 0 <= k < |fields[1..]| && BadMerchant(scan, fields[1..][k]);
        assert BadMerchant(scan, fields[k + 1]);
      }
      if k :| 0 <= k < |fields| && BadMerchant(scan, fields[k]) {
        assert k > 0 ==> BadMerchant(scan, fields[1..][k - 1]);
      }
    }
  }

  /** The input is well-formed up to and including a field 26 with a negative length column in its value. */
  ghost predicate BadMerchantAhead(scan: Scanner, s: string) {
    exists fields, f, rest: string ::
      && AllWellFormed(scan, fields) && WellFormed(scan, f) && s == TextAll(fields) + (Text(f) + rest)
      && BadMerchant(scan, f)
  }

  lemma NegativeIsLong(scan: Scanner, s: string)
    requires NegativeAhead(scan, s, 0)
    ensures |s| >= 4
  {
  }

  /** The outer walk visits a field that stands in well-formed text unless it is the last and empty. */
  lemma VisitsField(scan: Scanner, s: string, fields: seq<Field>, f: Field, rest: string)
    requires AllWellFormed(scan, fields) && WellFormed(scan, f) && s == TextAll(fields) + (Text(f) + rest)
             && f.value != ""
    ensures f in Walk(scan, s, 0, 4).fields
  {
    assert s[0..] == s;
    WalkReaches(scan, s, 0, 4, fields, Text(f) + rest);
    var i := |TextAll(fields)|;
    HeadAt(s, i, f, rest);
    assert Walk(scan, s, i, 4).fields[0] == f;
  }

  lemma TextFrom(fields: seq<Field>, k: nat)
    requires k < |fields|
    ensures TextAll(fields[k..]) == Text(fields[k]) + TextAll(fields[k + 1..])
  {
    assert fields[k..][1..] == fields[k + 1..];
  }

  lemma TextCons(f: Field, fs: seq<Field>)
    ensures TextAll([f] + fs) == Text(f) + TextAll(fs)
  {
    assert ([f] + fs)[1..] == fs;
  }

  lemma {:induction false} TextAppend(fs: seq<Field>, gs: seq<Field>)
    ensures TextAll(fs + gs) == TextAll(fs) + TextAll(gs)
  {
    if fs == [] {
      assert fs + gs == gs;
    } else {
      TextAppend(fs[1..], gs);
      assert fs + gs == [fs[0]] + (fs[1..] + gs) && fs == [fs[0]] + fs[1..];
      TextCons(fs[0], fs[1..] + gs);
      TextCons(fs[0], fs[1..]);
      Assoc(Text(fs[0]), TextAll(fs[1..]), TextAll(gs));
    }
  }

  lemma {:induction false} SplitText(s: string, fields: seq<Field>, end: nat, k: nat)
    requires k < |fields| && end <= |s| && s[..end] == TextAll(fields)
    ensures s == TextAll(fields[..k]) + (Text(fields[k]) + (TextAll(fields[k + 1..]) + s[end..]))
  {
    TextAppend(fields[..k], fields[k..]);
    assert fields == fields[..k] + fields[k..];
    TextFrom(fields, k);
    assert s == s[..end] + s[end..];
    Glue(TextAll(fields[..k]), Text(fields[k]), TextAll(fields[k + 1..]), s[end..]);
  }

  lemma Glue(a: string, b: string, c: string, d: string)
    ensures (a + (b + c)) + d == a + (b + (c + d))
  {
    Assoc(a, b + c, d);
    Assoc(b, c, d);
  }

  ghost predicate VisitsBadMerchant(scan: Scanner, w: Walked) {
    exists k :: 0 <= k < |w.fields| && BadMerchant(scan, w.fields[k])
  }

  lemma BadMerchantIsVisited(scan: Scanner, s: string)
    requires BadMerchantAhead(scan, s)
    ensures VisitsBadMerchant(scan, Walk(scan, s, 0, 4))
  {
    var w := Walk(scan, s, 0, 4);
    var fields, f, rest: string :|
      && AllWellFormed(scan, fields) && WellFormed(scan, f) && s == TextAll(fields) + (Text(f) + rest)
      && BadMerchant(scan, f);
    NegativeIsLong(scan, f.value);
    VisitsField(scan, s, fields, f, rest);
    var k :| 0 <= k < |w.fields| && w.fields[k] == f;
  }

  lemma VisitedIsAhead(scan: Scanner, s: string, k: nat)
    requires k < |Walk(scan, s, 0, 4).fields| && BadMerchant(scan, Walk(scan, s, 0, 4).fields[k])
    ensures BadMerchantAhead(scan, s)
  {
    var w := Walk(scan, s, 0, 4);
    WalkCovers(scan, s, 0, 4);
    assert s[0..w.end] == s[..w.end];
    SplitText(s, w.fields, w.end, k);
    assert AllWellFormed(scan, w.fields[..k]);
  }

  /**
   With the slice of seven characters of the source, or any but six, the outer
   parser slices backwards if and only if its input, well-formed so far, comes
   to a negative length column, either its own or inside a field 26.
   */
  lemma ParserPanics(scan: Scanner, width: nat, s: string)
    requires width != 6
    ensures OuterOutcome(scan, width, Walk(scan, s, 0, 4)) == Panics
            <==> NegativeAhead(scan, s, 4) || BadMerchantAhead(scan, s)
  {
    var w := Walk(scan, s, 0, 4);
    PanicsExactlyOnNegative(scan, s, 4);
    MerchantPanics(scan, width, w.fields);
    if BadMerchantAhead(scan, s) {
      BadMerchantIsVisited(scan, s);
    }
    if k :| 0 <= k < |w.fields| && BadMerchant(scan, w.fields[k]) {
      VisitedIsAhead(scan, s, k);
    }
  }

  /** An input on which the parser slices backwards: its first length column reads as minus one. */
  lemma PanickingInput(scan: Scanner)
    requires scan("-1") == -1
    ensures OuterOutcome(scan, 7, Walk(scan, "26-1000000", 0, 4)) == Panics
  {
    var s := "26-1000000";
    assert s[2..4] == "-1";
    assert NegativeAt(scan, s, 4);
    assert s == TextAll([]) + s;
    assert AllWellFormed(scan, []);
    ParserPanics(scan, 7, s);
  }
}

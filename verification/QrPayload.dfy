/**
 The EMVCo payload the service builds, what its own parsers see in it, and the
 checksum that seals it.
 */
module QrPayload {
  import opened Common
  import opened Tlv
  import Crc

  /** The configured values; the empty string means not configured. */
  datatype Config = Config(baseUrl: string, route: string, merchantId: string, merchantName: string,
                           merchantCity: string)

  function OrDefault(s: string, default: string): string {
    if s == "" then default else s
  }

  /** The deep link up to and including the question mark. */
  function LinkBase(c: Config): string {
    "https://" + OrDefault(c.baseUrl, "app.ruralpay.com") + "/" + OrDefault(c.route, "pay/qr") + "?"
  }

  function DeepLink(c: Config, token: string): string {
    LinkBase(c) + "token=" + token
  }

  function MerchantId(c: Config): string {
    OrDefault(c.merchantId, "RURALPAY")
  }

  function MerchantName(c: Config): string {
    OrDefault(c.merchantName, "RuralPay")
  }

  function MerchantCity(c: Config): string {
    OrDefault(c.merchantCity, "Lagos")
  }

  function MerchantInfo(c: Config, token: string): string {
    MerchantOf(MerchantId(c), DeepLink(c, token))
  }

  function MerchantOf(id: string, link: string): string {
    "26" + Two(|"00" + Two(|id|) + id + "01" + Two(|link|) + link|) + "00" + Two(|id|) + id + "01" + Two(|link|) + link
  }

  function Body(c: Config, token: string): string {
    BodyOf(MerchantInfo(c, token), MerchantName(c), MerchantCity(c))
  }

  function BodyOf(merchantAccountInfo: string, name: string, city: string): string {
    "000201" + "010212" + merchantAccountInfo + "5303566" + "5802NG"
    + ("59" + Two(|name|) + name) + ("60" + Two(|city|) + city)
  }

  function ByteOf(ch: char): Byte {
    (ch as int % 256) as bv8
  }

  function Bytes(s: string): (b: seq<Byte>)
    ensures |b| == |s| && forall i :: 0 <= i < |s| ==> b[i] == ByteOf(s[i])
  {
    seq(|s|, i requires 0 <= i < |s| => ByteOf(s[i]))
  }

  /** The checksum of a payload, as the number that is printed. */
  function CrcOf(s: string): nat {
    Crc.Crc(Bytes(s)) as int
  }

  function BuildEMVCoQR(c: Config, token: string): string {
    Body(c, token) + "6304" + Hex4(CrcOf(Body(c, token) + "6304"))
  }

  lemma DefaultLengths()
    ensures Two(41) == "41" && Two(57) == "57" && Two(8) == "08" && Two(5) == "05"
  {
    assert Decimal(4) == "4" && Decimal(5) == "5";
  }

  lemma MerchantPrefix(id: string, link: string)
    requires |id| == 8 && |link| == 41
    ensures MerchantOf(id, link) == "26570008" + id + "0141" + link
  {
    DefaultLengths();
    assert |"00" + Two(|id|) + id + "01" + Two(|link|) + link| == 57;
    assert "26" + "57" + "00" + "08" == "26570008" && "01" + "41" == "0141";
    assert MerchantOf(id, link) == "26" + "57" + "00" + "08" + id + "01" + "41" + link;
    assert MerchantOf(id, link) == ("26" + "57" + "00" + "08") + id + ("01" + "41") + link;
  }

  /** With nothing configured, the payload for the token "abc" up to its checksum. */
  lemma DefaultPayload()
    ensures var payload := BuildEMVCoQR(Config("", "", "", "", ""), "abc");
            var link := "https://" + "app.ruralpay.com" + "/" + "pay/qr" + "?" + "token=" + "abc";
            payload[..|payload| - 4]
            == "000201" + "010212" + ("26570008" + "RURALPAY" + "0141" + link) + "5303566" + "5802NG"
               + "5908RuralPay" + "6005Lagos" + "6304"
  {
    var c := Config("", "", "", "", "");
    DefaultLengths();
    MerchantPrefix("RURALPAY", DeepLink(c, "abc"));
    assert "59" + Two(8) + "RuralPay" == "5908RuralPay" && "60" + Two(5) + "Lagos" == "6005Lagos";
    var payload := BuildEMVCoQR(c, "abc");
    assert payload[..|payload| - 4] == Body(c, "abc") + "6304";
  }

  /** With everything configured, the whole payload: each configured value in its place, with its length. */
  lemma ConfiguredPayload(c: Config, token: string)
    requires c.baseUrl != "" && c.route != "" && c.merchantId != "" && c.merchantName != "" && c.merchantCity != ""
    ensures var link := "https://" + c.baseUrl + "/" + c.route + "?" + "token=" + token;
            var inner := "00" + Two(|c.merchantId|) + c.merchantId + "01" + Two(|link|) + link;
            var payload := BuildEMVCoQR(c, token);
            payload[..|payload| - 4]
            == "000201" + "010212"
               + ("26" + Two(|inner|) + "00" + Two(|c.merchantId|) + c.merchantId + "01" + Two(|link|) + link)
               + "5303566" + "5802NG" + ("59" + Two(|c.merchantName|) + c.merchantName)
               + ("60" + Two(|c.merchantCity|) + c.merchantCity) + "6304"
  {
    var payload := BuildEMVCoQR(c, token);
    assert payload[..|payload| - 4] == Body(c, token) + "6304";
  }

  // ---------- What is in it ----------

  function InnerFields(c: Config, token: string): seq<Field> {
    [Of("00", MerchantId(c)), Of("01", DeepLink(c, token))]
  }

  function Inner(c: Config, token: string): string {
    TextAll(InnerFields(c, token))
  }

  function Checksum(c: Config, token: string): string {
    Hex4(CrcOf(Body(c, token) + "6304"))
  }

  /** Tags 00, 01, 26, 53, 58, 59, 60 and 63, in this order. */
  function Fields(c: Config, token: string): seq<Field> {
    FieldsOf(Inner(c, token), MerchantName(c), MerchantCity(c), Checksum(c, token))
  }

  function FieldsOf(inner: string, name: string, city: string, checksum: string): seq<Field> {
    [Of("00", "01"), Of("01", "12"), Of("26", inner), Of("53", "566"), Of("58", "NG"),
     Of("59", name), Of("60", city), Of("63", checksum)]
  }

  lemma {:induction false} TextSnoc(fs: seq<Field>, f: Field)
    ensures TextAll(fs + [f]) == TextAll(fs) + Text(f)
  {
    if fs == [] {
      assert TextAll([f]) == Text(f) + TextAll([]);
    } else {
      TextSnoc(fs[1..], f);
      assert (fs + [f])[1..] == fs[1..] + [f];
      assert TextAll(fs + [f]) == Text(fs[0]) + (TextAll(fs[1..]) + Text(f));
    }
  }

  lemma TextStep(fs: seq<Field>, k: nat)
    requires k < |fs|
    ensures TextAll(fs[..k + 1]) == TextAll(fs[..k]) + Text(fs[k])
  {
    TextSnoc(fs[..k], fs[k]);
    assert fs[..k + 1] == fs[..k] + [fs[k]];
  }

  lemma TextTwo(f: Field, g: Field)
    ensures TextAll([f, g]) == Text(f) + Text(g)
  {
    var fs := [f, g];
    TextStep(fs, 0);
    TextStep(fs, 1);
    assert fs[..0] == [] && fs[..2] == fs;
  }

  lemma Regroup(head: string, a: string, b: string, c: string, x: string, y: string, z: string)
    ensures head + a + b + c + x + y + z == head + ((a + b + c) + (x + y + z))
  {
  }

  lemma InnerText(c: Config, token: string)
    ensures MerchantInfo(c, token) == Text(Of("26", Inner(c, token)))
  {
    MerchantText(MerchantId(c), DeepLink(c, token));
  }

  lemma MerchantText(id: string, link: string)
    ensures MerchantOf(id, link) == Text(Of("26", TextAll([Of("00", id), Of("01", link)])))
  {
    TextTwo(Of("00", id), Of("01", link));
    Regroup("", "00", Two(|id|), id, "01", Two(|link|), link);
    Regroup("26" + Two(|Text(Of("00", id)) + Text(Of("01", link))|), "00", Two(|id|), id, "01", Two(|link|), link);
  }

  lemma SmallNumbers()
    ensures Two(2) == "02" && Two(3) == "03" && Two(4) == "04"
  {
  }

  lemma FixedTexts()
    ensures Text(Of("00", "01")) == "000201" && Text(Of("01", "12")) == "010212"
    ensures Text(Of("53", "566")) == "5303566" && Text(Of("58", "NG")) == "5802NG"
  {
    SmallNumbers();
  }

  lemma SevenTexts(fs: seq<Field>, a: string, b: string, c: string, d: string, e: string, f: string, g: string)
    requires |fs| >= 7
    requires Text(fs[0]) == a && Text(fs[1]) == b && Text(fs[2]) == c && Text(fs[3]) == d
    requires Text(fs[4]) == e && Text(fs[5]) == f && Text(fs[6]) == g
    ensures TextAll(fs[..7]) == a + b + c + d + e + f + g
  {
    assert fs[..0] == [];
    TextStep(fs, 0);
    TextStep(fs, 1);
    TextStep(fs, 2);
    TextStep(fs, 3);
    TextStep(fs, 4);
    TextStep(fs, 5);
    TextStep(fs, 6);
  }

  lemma BodyText(inner: string, name: string, city: string, checksum: string)
    ensures TextAll(FieldsOf(inner, name, city, checksum)[..7]) == BodyOf(Text(Of("26", inner)), name, city)
  {
    FixedTexts();
    SevenTexts(FieldsOf(inner, name, city, checksum), "000201", "010212", Text(Of("26", inner)), "5303566", "5802NG",
               "59" + Two(|name|) + name, "60" + Two(|city|) + city);
  }

  /** The concatenation in the source is the text of the eight fields. */
  lemma BuildIsText(c: Config, token: string)
    ensures BuildEMVCoQR(c, token) == TextAll(Fields(c, token))
  {
    var fs := Fields(c, token);
    InnerText(c, token);
    BodyText(Inner(c, token), MerchantName(c), MerchantCity(c), Checksum(c, token));
    TextStep(fs, 7);
    assert fs[..8] == fs;
    SealText(Body(c, token), Checksum(c, token));
  }

  lemma SealText(body: string, checksum: string)
    requires |checksum| == 4
    ensures body + "6304" + checksum == body + Text(Of("63", checksum))
  {
    SmallNumbers();
    assert Text(Of("63", checksum)) == "6304" + checksum;
  }

  /** Every value that goes behind a two-digit length column has at most 99 characters. */
  predicate Fits(c: Config, token: string) {
    |Inner(c, token)| <= 99 && |MerchantName(c)| <= 99 && |MerchantCity(c)| <= 99
  }

  lemma InnerFits(c: Config, token: string)
    ensures |Inner(c, token)| <= 99 ==> |MerchantId(c)| <= 99 && |DeepLink(c, token)| <= 99
  {
    TextTwo(Of("00", MerchantId(c)), Of("01", DeepLink(c, token)));
  }

  lemma FieldsWellFormed(scan: Scanner, c: Config, token: string)
    requires ReadsDigits(scan) && Fits(c, token)
    ensures AllWellFormed(scan, Fields(c, token))
  {
    EightWellFormed(scan, Inner(c, token), MerchantName(c), MerchantCity(c), Checksum(c, token));
  }

  lemma EightWellFormed(scan: Scanner, inner: string, name: string, city: string, checksum: string)
    requires ReadsDigits(scan) && |inner| <= 99 && |name| <= 99 && |city| <= 99 && |checksum| == 4
    ensures AllWellFormed(scan, FieldsOf(inner, name, city, checksum))
  {
    OfWellFormed(scan, "00", "01");
    OfWellFormed(scan, "01", "12");
    OfWellFormed(scan, "26", inner);
    OfWellFormed(scan, "53", "566");
    OfWellFormed(scan, "58", "NG");
    OfWellFormed(scan, "59", name);
    OfWellFormed(scan, "60", city);
    OfWellFormed(scan, "63", checksum);
  }

  lemma WellFormedFits(scan: Scanner, c: Config, token: string)
    requires AllWellFormed(scan, Fields(c, token))
    ensures Fits(c, token)
  {
    var fs := Fields(c, token);
    assert WellFormed(scan, fs[2]) && WellFormed(scan, fs[5]) && WellFormed(scan, fs[6]);
  }

  /** The outer walk visits exactly the eight fields if and only if every value fits its length column. */
  lemma BuildVisited(scan: Scanner, c: Config, token: string)
    requires ReadsDigits(scan)
    ensures Walk(scan, BuildEMVCoQR(c, token), 0, 4).fields == Fields(c, token) <==> Fits(c, token)
  {
    var fs, s := Fields(c, token), BuildEMVCoQR(c, token);
    BuildIsText(c, token);
    WalkCovers(scan, s, 0, 4);
    if Fits(c, token) {
      FieldsWellFormed(scan, c, token);
      OuterSeesAll(scan, fs);
    } else if AllWellFormed(scan, fs) {
      WellFormedFits(scan, c, token);
    }
  }

  /** The inner walk of field 26 visits the merchant id and the deep link. */
  lemma InnerVisited(scan: Scanner, c: Config, token: string)
    requires ReadsDigits(scan) && |Inner(c, token)| <= 99
    ensures Walk(scan, Inner(c, token), 0, 0) == Walked(InnerFields(c, token), |Inner(c, token)|, false)
  {
    InnerFits(c, token);
    var id, link := MerchantId(c), DeepLink(c, token);
    assert scan(Two(|id|)) == |id| && scan(Two(|link|)) == |link|;
    WalkInvertsText(scan, Inner(c, token), InnerFields(c, token));
  }

  // ---------- Token recovery ----------

  lemma {:induction false} FirstMarker(value: string, from: nat, at: nat)
    requires from <= at <= |value| && MarkerAt(6, value, at)
    requires forall j :: from <= j < at ==> !MarkerAt(6, value, j)
    ensures TokenStart(6, value, from) == at + 6
    decreases at - from
  {
    if from < at {
      FirstMarker(value, from + 1, at);
    }
  }

  lemma {:induction false} StartBefore(value: string, from: nat, at: nat)
    requires from <= at <= |value| && MarkerAt(6, value, at)
    ensures from + 6 <= TokenStart(6, value, from) <= at + 6
    decreases at - from
  {
    if from < at && !MarkerAt(6, value, from) {
      StartBefore(value, from + 1, at);
    }
  }

  predicate EarlierMarker(c: Config, token: string) {
    exists j :: 0 <= j < |LinkBase(c)| && MarkerAt(6, DeepLink(c, token), j)
  }

  lemma LinkToken(c: Config, token: string)
    ensures TokenOf(6, Of("01", DeepLink(c, token))) == Some(token) <==> token != "" && !EarlierMarker(c, token)
  {
    var link, at := DeepLink(c, token), |LinkBase(c)|;
    assert link[..8] == "https://";
    assert link[at..at + 6] == "token=" && link[at + 6..] == token;
    assert MarkerAt(6, link, at);
    if EarlierMarker(c, token) {
      var j :| 0 <= j < at && MarkerAt(6, link, j);
      StartBefore(link, 0, j);
    } else {
      FirstMarker(link, 0, at);
    }
  }

  /**
   With a comparison of six characters instead of seven the parser would
   recover the token of a payload that fits, exactly when the token is not
   empty and the link does not contain an earlier marker.
   */
  lemma RepairedParserRecovers(scan: Scanner, c: Config, token: string)
    requires ReadsDigits(scan) && Fits(c, token)
    ensures OuterOutcome(scan, 6, Walk(scan, BuildEMVCoQR(c, token), 0, 4)) == Found(token)
            <==> token != "" && !EarlierMarker(c, token)
  {
    BuildVisited(scan, c, token);
    BuildWalk(scan, c, token);
    LinkToken(c, token);
    MerchantFound(scan, c, token);
  }

  function Conclude(token: Option<string>): Outcome {
    match token
    case Some(t) => Found(t)
    case None => NotFound
  }

  lemma {:induction false} MerchantFound(scan: Scanner, c: Config, token: string)
    requires ReadsDigits(scan) && Fits(c, token)
    ensures FirstMerchant(scan, 6, Fields(c, token)) == Conclude(TokenOf(6, Of("01", DeepLink(c, token))))
  {
    InnerVisited(scan, c, token);
    InnerFound(scan, Inner(c, token), MerchantId(c), DeepLink(c, token));
    NotMerchant(scan, Fields(c, token));
  }

  lemma InnerFound(scan: Scanner, inner: string, id: string, link: string)
    requires Walk(scan, inner, 0, 0) == Walked([Of("00", id), Of("01", link)], |inner|, false)
    ensures InnerOutcome(6, Walk(scan, inner, 0, 0)) == Conclude(TokenOf(6, Of("01", link)))
  {
    InnerToken(Of("00", id), Of("01", link));
  }

  lemma BuildWalk(scan: Scanner, c: Config, token: string)
    requires ReadsDigits(scan) && Fits(c, token)
    ensures Walk(scan, BuildEMVCoQR(c, token), 0, 4).panics == false
  {
    BuildIsText(c, token);
    FieldsWellFormed(scan, c, token);
    assert BuildEMVCoQR(c, token)[0..] == BuildEMVCoQR(c, token);
    WalkVisits(scan, BuildEMVCoQR(c, token), 0, 4, Fields(c, token));
  }

  lemma InnerToken(f: Field, g: Field)
    requires f.tag != "01"
    ensures FirstToken(6, [f, g]) == TokenOf(6, g)
  {
    assert [f, g][1..] == [g] && [g][1..] == [];
    assert FirstToken(6, []) == None;
    assert FirstToken(6, [g]) == TokenOf(6, g);
  }

  lemma {:induction false} NoMerchants(scan: Scanner, fs: seq<Field>)
    requires forall i :: 0 <= i < |fs| ==> fs[i].tag != "26"
    ensures FirstMerchant(scan, 6, fs) == NotFound
  {
    if fs != [] {
      NoMerchants(scan, fs[1..]);
    }
  }

  lemma NotMerchant(scan: Scanner, fs: seq<Field>)
    requires |fs| == 8 && fs[2].tag == "26"
    requires forall i :: 0 <= i < 8 && i != 2 ==> fs[i].tag != "26"
    ensures FirstMerchant(scan, 6, fs) == InnerOutcome(6, Walk(scan, fs[2].value, 0, 0))
  {
    assert fs[1..][0] == fs[1] && fs[1..][1..] == fs[2..] && fs[2..][0] == fs[2] && fs[2..][1..] == fs[3..];
    NoMerchants(scan, fs[3..]);
    assert FirstMerchant(scan, 6, fs) == FirstMerchant(scan, 6, fs[1..]);
    assert FirstMerchant(scan, 6, fs[1..]) == FirstMerchant(scan, 6, fs[2..]);
  }

  // ---------- The checksum ----------

  /** The last four characters are the CRC of everything before them. */
  predicate Sealed(s: string) {
    |s| >= 4 && s[|s| - 4..] == Hex4(CrcOf(s[..|s| - 4]))
  }

  /** The last four characters are upper-case hexadecimal digits, and denote the CRC of everything before them. */
  lemma BuildSealed(c: Config, token: string)
    ensures Sealed(BuildEMVCoQR(c, token))
    ensures var s := BuildEMVCoQR(c, token);
            && UpperHexDigits(s[|s| - 4..])
            && ReadIn(16, s[|s| - 4..]) == Crc.Crc(Bytes(s[..|s| - 4])) as int
  {
    var s := BuildEMVCoQR(c, token);
    assert s[..|s| - 4] == Body(c, token) + "6304";
    assert s[|s| - 4..] == Checksum(c, token);
    Hex4Reads(CrcOf(Body(c, token) + "6304"));
  }

  lemma Hex4Injective(m: nat, n: nat)
    requires m < 65536 && n < 65536 && Hex4(m) == Hex4(n)
    ensures m == n
  {
    Hex4Reads(m);
    Hex4Reads(n);
  }

  lemma WordAsNumber(x: bv16)
    ensures 0 <= x as int < 65536
  {
  }

  lemma NumberBack(x: bv16)
    ensures (x as int) as bv16 == x
  {
  }

  lemma SameNumber(x: bv16, y: bv16, m: int, n: int)
    requires m == x as int && n == y as int && m == n
    ensures x == y
  {
    NumberBack(x);
    NumberBack(y);
  }

  /** Altering a sealed payload within sixteen consecutive bits before its checksum breaks the seal. */
  lemma AlterationBreaksSeal(s: string, t: string, f: nat)
    requires Sealed(s) && |t| == |s|
    requires t[|t| - 4..] == s[|s| - 4..]
    requires Bytes(s[..|s| - 4]) != Bytes(t[..|t| - 4])
    requires Crc.DifferOnlyFrom(Crc.Bits(Bytes(s[..|s| - 4])), Crc.Bits(Bytes(t[..|t| - 4])), f)
    ensures !Sealed(t)
  {
    var x, y := Crc.Crc(Bytes(s[..|s| - 4])), Crc.Crc(Bytes(t[..|t| - 4]));
    Crc.BurstDetected(Bytes(s[..|s| - 4]), Bytes(t[..|t| - 4]), f);
    if Sealed(t) {
      WordAsNumber(x);
      WordAsNumber(y);
      Hex4Injective(x as int, y as int);
      SameNumber(x, y, x as int, y as int);
    }
  }
}

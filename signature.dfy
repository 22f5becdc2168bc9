/** The request signature of `generateSignature` (src/utils/request.js):
    `MD5(appId + "&" + timestamp + "&" + nonce) + "." + reverse(nonce)`.
    The digest, the clock and the random source are parameters. */
module Signature {
  import opened Options
  import opened Strings

  /** The fixed application identifier that opens the signed data. */
  const AppId: string := "jocy"

  /** The `count` consecutive characters starting at `first`. */
  function CharRange(first: char, count: nat): (r: string)
    requires first as int + count <= 0xD800
    ensures |r| == count
    ensures forall i :: 0 <= i < count ==> r[i] as int == first as int + i
  {
    seq(count, i requires 0 <= i < count => (first as int + i) as char)
  }

  /** The 62 characters a nonce is drawn from, in the source's order: A-Z, a-z, 0-9. */
  const Alphabet: string := CharRange('A', 26) + CharRange('a', 26) + CharRange('0', 10)

  /** Each range spelled out. */
  lemma UpperRange()
    ensures CharRange('A', 26) == "ABCDEFGHIJKLMNOPQRSTUVWXYZ"
  {
    var r := CharRange('A', 26);
    assert r[0] == 'A';
    assert r[1] == 'B';
    assert r[2] == 'C';
    assert r[3] == 'D';
    assert r[4] == 'E';
    assert r[5] == 'F';
    assert r[6] == 'G';
    assert r[7] == 'H';
    assert r[8] == 'I';
    assert r[9] == 'J';
    assert r[10] == 'K';
    assert r[11] == 'L';
    assert r[12] == 'M';
    assert r[13] == 'N';
    assert r[14] == 'O';
    assert r[15] == 'P';
    assert r[16] == 'Q';
    assert r[17] == 'R';
    assert r[18] == 'S';
    assert r[19] == 'T';
    assert r[20] == 'U';
    assert r[21] == 'V';
    assert r[22] == 'W';
    assert r[23] == 'X';
    assert r[24] == 'Y';
    assert r[25] == 'Z';
  }

  lemma LowerRange()
    ensures CharRange('a', 26) == "abcdefghijklmnopqrstuvwxyz"
  {
    var r := CharRange('a', 26);
    assert r[0] == 'a';
    assert r[1] == 'b';
    assert r[2] == 'c';
    assert r[3] == 'd';
    assert r[4] == 'e';
    assert r[5] == 'f';
    assert r[6] == 'g';
    assert r[7] == 'h';
    assert r[8] == 'i';
    assert r[9] == 'j';
    assert r[10] == 'k';
    assert r[11] == 'l';
    assert r[12] == 'm';
    assert r[13] == 'n';
    assert r[14] == 'o';
    assert r[15] == 'p';
    assert r[16] == 'q';
    assert r[17] == 'r';
    assert r[18] == 's';
    assert r[19] == 't';
    assert r[20] == 'u';
    assert r[21] == 'v';
    assert r[22] == 'w';
    assert r[23] == 'x';
    assert r[24] == 'y';
    assert r[25] == 'z';
  }

  lemma DigitRange()
    ensures CharRange('0', 10) == "0123456789"
  {
    var r := CharRange('0', 10);
    assert r[0] == '0';
    assert r[1] == '1';
    assert r[2] == '2';
    assert r[3] == '3';
    assert r[4] == '4';
    assert r[5] == '5';
    assert r[6] == '6';
    assert r[7] == '7';
    assert r[8] == '8';
    assert r[9] == '9';
  }

  /** The alphabet is exactly the `chars` literal of `generateSignature`. */
  lemma AlphabetIsSourceLiteral()
    ensures Alphabet == "ABCDEFGHIJKLMNOPQRSTUVWXYZabcdefghijklmnopqrstuvwxyz0123456789"
  {
    UpperRange();
    LowerRange();
    DigitRange();
  }

  const NonceLength: nat := 10

  /** The largest magnitude of an ECMAScript time value, in milliseconds. */
  const MaxTimeValue: int := 8_640_000_000_000_000

  /** What `generateSignature` returns: the signature and the timestamp it signed. */
  datatype Stamp = Stamp(signature: string, timestamp: string)

  /** The two halves of a signature: the digest before the last `.` and the nonce
      recovered by reversing what follows it. */
  datatype Parts = Parts(digest: string, nonce: string)

  /** A value `Date.now()` can return. */
  predicate IsTimeValue(ms: int) {
    -MaxTimeValue <= ms <= MaxTimeValue
  }

  /** A value `Math.random()` can return. */
  predicate IsDraw(r: real) {
    0.0 <= r < 1.0
  }

  /** The ten draws of `Math.random()` one nonce consumes. */
  predicate AreDraws(draws: seq<real>) {
    |draws| == NonceLength && forall i :: 0 <= i < |draws| ==> IsDraw(draws[i])
  }

  predicate IsAlphanumeric(c: char) {
    'A' <= c <= 'Z' || 'a' <= c <= 'z' || '0' <= c <= '9'
  }

  lemma AlphabetIsAlphanumeric()
    ensures |Alphabet| == 62
    ensures forall i :: 0 <= i < |Alphabet| ==> IsAlphanumeric(Alphabet[i])
  {
  }

  /** `Math.floor(ms / 1000)`: whole seconds, rounded towards minus infinity. */
  function Seconds(ms: int): (s: int)
    ensures s * 1000 <= ms < s * 1000 + 1000
  {
    ms / 1000
  }

  /** `Math.floor(r * chars.length)`: the alphabet index one draw selects. */
  function CharIndex(r: real): (i: nat)
    requires IsDraw(r)
    ensures i < |Alphabet|
    ensures i as real <= r * 62.0 < i as real + 1.0
  {
    (r * (|Alphabet| as real)).Floor
  }

  /** The nonce `randomStr`: the character each draw selects, in draw order. */
  function Nonce(draws: seq<real>): (nonce: string)
    requires AreDraws(draws)
    ensures |nonce| == NonceLength
    ensures forall i :: 0 <= i < NonceLength ==> nonce[i] == Alphabet[CharIndex(draws[i])]
    ensures forall i :: 0 <= i < NonceLength ==> IsAlphanumeric(nonce[i])
  {
    AlphabetIsAlphanumeric();
    seq(NonceLength, i requires 0 <= i < NonceLength => Alphabet[CharIndex(draws[i])])
  }

  /** The string that is hashed: `${jocy}&${timestamp}&${randomStr}`. */
  function SignData(timestamp: string, nonce: string): string {
    AppId + "&" + timestamp + "&" + nonce
  }

  /** Splits signed data back into its timestamp and nonce. */
  function ParseSignData(data: string): Option<(string, string)> {
    var prefix := AppId + "&";
    if |data| < |prefix| || data[..|prefix|] != prefix then None
    else
      var rest := data[|prefix|..];
      match FirstIndexOf(rest, '&')
      case None => None
      case Some(k) => Some((rest[..k], rest[k + 1..]))
  }

  /** Signed data gives back the timestamp and nonce it was built from, provided
      the timestamp has no `&` in it. */
  lemma ParseSignDataRoundTrip(timestamp: string, nonce: string)
    requires '&' !in timestamp
    ensures ParseSignData(SignData(timestamp, nonce)) == Some((timestamp, nonce))
  {
    var data := SignData(timestamp, nonce);
    var prefix := AppId + "&";
    assert data[..|prefix|] == prefix;
    var rest := data[|prefix|..];
    assert rest == timestamp + ['&'] + nonce;
    FirstIndexOfJoin(timestamp, '&', nonce);
    assert rest[..|timestamp|] == timestamp;
    assert rest[|timestamp| + 1..] == nonce;
  }

  /** Splits a signature at its last `.` and reverses the part after it. */
  function ParseSignature(signature: string): Option<Parts> {
    match LastIndexOf(signature, '.')
    case None => None
    case Some(k) => Some(Parts(signature[..k], Reverse(signature[k + 1..])))
  }

  /** A digest joined to a reversed nonce with no `.` in it splits back into the
      digest and the nonce, whatever characters the digest holds. */
  lemma ParseSignatureRoundTrip(digest: string, nonce: string)
    requires '.' !in nonce
    ensures ParseSignature(digest + "." + Reverse(nonce)) == Some(Parts(digest, nonce))
  {
    var reversed := Reverse(nonce);
    var signature := digest + ['.'] + reversed;
    ReverseSameChars(nonce, '.');
    LastIndexOfJoin(digest, '.', reversed);
    assert signature[..|digest|] == digest;
    assert signature[|digest| + 1..] == reversed;
    ReverseReverse(nonce);
    assert ParseSignature(signature) == Some(Parts(digest, Reverse(reversed)));
  }

  /** `generateSignature()`, with `Date.now()` as `nowMillis`, the ten
      `Math.random()` results as `draws` and CryptoJS's MD5 as `md5`. What it
      returns is characterised by `StampStructure`. */
  function GenerateSignature(md5: string -> string, nowMillis: int, draws: seq<real>): Stamp
    requires IsTimeValue(nowMillis) && AreDraws(draws)
  {
    var timestamp := IntToDecimal(Seconds(nowMillis));
    var randomStr := Nonce(draws);
    var reversedRandomStr := Reverse(randomStr);
    var signData := SignData(timestamp, randomStr);
    Stamp(md5(signData) + "." + reversedRandomStr, timestamp)
  }

  /** The returned timestamp is the canonical decimal literal of the whole
      seconds of `nowMillis` (by `CanonicalLiteralUnique`, the only string of
      that form and value); the signed data gives back that same timestamp and the nonce;
      the signature splits into the digest of the signed data and a part that
      reverses to the nonce. */
  lemma StampStructure(md5: string -> string, nowMillis: int, draws: seq<real>)
    requires IsTimeValue(nowMillis) && AreDraws(draws)
    ensures var stamp := GenerateSignature(md5, nowMillis, draws);
      && IsCanonicalIntLiteral(stamp.timestamp)
      && (stamp.timestamp[0] == '-') == (nowMillis < 0)
      && ParseInt(stamp.timestamp) * 1000 <= nowMillis < ParseInt(stamp.timestamp) * 1000 + 1000
      && ParseSignData(SignData(stamp.timestamp, Nonce(draws))) == Some((stamp.timestamp, Nonce(draws)))
      && ParseSignature(stamp.signature) == Some(Parts(md5(SignData(stamp.timestamp, Nonce(draws))), Nonce(draws)))
  {
    var timestamp := IntToDecimal(Seconds(nowMillis));
    var randomStr := Nonce(draws);
    ParseIntToDecimal(Seconds(nowMillis));
    NoAmpersandInTimestamp(timestamp);
    ParseSignDataRoundTrip(timestamp, randomStr);
    NoDotInNonce(randomStr);
    ParseSignatureRoundTrip(md5(SignData(timestamp, randomStr)), randomStr);
  }

  lemma NoAmpersandInTimestamp(timestamp: string)
    requires IsIntLiteral(timestamp)
    ensures '&' !in timestamp
  {
    if '&' in timestamp {
      IntLiteralChars(timestamp, '&');
    }
  }

  lemma NoDotInNonce(nonce: string)
    requires forall i :: 0 <= i < |nonce| ==> IsAlphanumeric(nonce[i])
    ensures '.' !in nonce
  {
  }

  /** What a receiver can check of a stamp: the signature splits at its last `.`,
      the recovered nonce has ten characters, and the digest is the hash of the
      signed data rebuilt from the stamp's own timestamp and that nonce. */
  predicate Verifies(md5: string -> string, stamp: Stamp) {
    match ParseSignature(stamp.signature)
    case None => false
    case Some(p) => |p.nonce| == NonceLength && p.digest == md5(SignData(stamp.timestamp, p.nonce))
  }

  /** Every generated stamp verifies. */
  lemma GeneratedStampVerifies(md5: string -> string, nowMillis: int, draws: seq<real>)
    requires IsTimeValue(nowMillis) && AreDraws(draws)
    ensures Verifies(md5, GenerateSignature(md5, nowMillis, draws))
  {
    StampStructure(md5, nowMillis, draws);
  }

  /** The signature determines the nonce: stamps built from different nonces
      have different signatures, whatever the digest does. */
  lemma SignatureDeterminesNonce(md5: string -> string, t1: int, d1: seq<real>, t2: int, d2: seq<real>)
    requires IsTimeValue(t1) && AreDraws(d1) && IsTimeValue(t2) && AreDraws(d2)
    requires GenerateSignature(md5, t1, d1).signature == GenerateSignature(md5, t2, d2).signature
    ensures Nonce(d1) == Nonce(d2)
  {
    StampStructure(md5, t1, d1);
    StampStructure(md5, t2, d2);
  }

  /** Two calls within the same second carry the same timestamp. */
  lemma SameSecondSameTimestamp(md5: string -> string, t1: int, d1: seq<real>, t2: int, d2: seq<real>)
    requires IsTimeValue(t1) && AreDraws(d1) && IsTimeValue(t2) && AreDraws(d2)
    requires Seconds(t1) == Seconds(t2)
    ensures GenerateSignature(md5, t1, d1).timestamp == GenerateSignature(md5, t2, d2).timestamp
  {
  }
}

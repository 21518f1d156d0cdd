/** DexiAuth: the account credentials sent with every request; the access
    token is the lower-case hex form of MD5(accountId + secret). */
module DexiAuth {
  /** A Java `byte`. */
  newtype int8 = x: int | -128 <= x < 128

  /** Type */
  datatype AuthType = Account | App

  /** `b & 0xff`: the byte read as unsigned. */
  function Unsigned(b: int8): (u: nat)
    ensures u < 256
    ensures u % 256 == (b as int) % 256
  {
    if b < 0 then b as int + 256 else b as int
  }

  /** Character.forDigit(d, 16): lower-case hex digits. */
  function HexDigit(d: nat): char
    requires d < 16
  {
    "0123456789abcdef"[d]
  }

  predicate IsLowerHexDigit(c: char) {
    '0' <= c <= '9' || 'a' <= c <= 'f'
  }

  /** Integer.toString(n, 16) for a non-negative n: no leading zeros. */
  function ToHexString(n: nat): (s: string)
    ensures |s| >= 1
    ensures forall i :: 0 <= i < |s| ==> IsLowerHexDigit(s[i])
  {
    if n < 16 then [HexDigit(n)] else ToHexString(n / 16) + [HexDigit(n % 16)]
  }

  /** Adding 0x100 puts every unsigned byte in [256, 511], whose base-16 form
      is "1" followed by exactly the two nibbles, high first. */
  lemma NinthBitSetsThreeDigits(u: nat)
    requires u < 256
    ensures ToHexString(u + 256) == ['1', HexDigit(u / 16), HexDigit(u % 16)]
  {
    var n := u + 256;
    assert n / 16 == 16 + u / 16;
    assert (n / 16) / 16 == 1 && (n / 16) % 16 == u / 16;
    assert n % 16 == u % 16;
  }

  /** One iteration's append: Integer.toString((b & 0xff) + 0x100, 16).substring(1). */
  function ByteHex(b: int8): (s: string)
    ensures s == [HexDigit(Unsigned(b) / 16), HexDigit(Unsigned(b) % 16)]
  {
    NinthBitSetsThreeDigits(Unsigned(b));
    ToHexString(Unsigned(b) + 256)[1..]
  }

  /** The whole string convertByteToHex builds. */
  function Hex(bs: seq<int8>): (s: string)
    ensures |s| == 2 * |bs|
  {
    if bs == [] then "" else Hex(bs[..|bs| - 1]) + ByteHex(bs[|bs| - 1])
  }

  /** convertByteToHex: the StringBuilder loop. */
  method ConvertByteToHex(bytes: seq<int8>) returns (s: string)
    ensures s == Hex(bytes)
  {
    s := "";
    for i := 0 to |bytes|
      invariant s == Hex(bytes[..i])
    {
      assert bytes[..i + 1][..i] == bytes[..i];
      s := s + ByteHex(bytes[i]);
    }
    assert bytes[..|bytes|] == bytes;
  }

  /** Every character of the output is one of 0-9, a-f. */
  lemma {:induction false} HexIsLowerCase(bs: seq<int8>)
    ensures forall i :: 0 <= i < |Hex(bs)| ==> IsLowerHexDigit(Hex(bs)[i])
  {
    if bs != [] {
      HexIsLowerCase(bs[..|bs| - 1]);
      var b := ByteHex(bs[|bs| - 1]);
      assert IsLowerHexDigit(b[0]) && IsLowerHexDigit(b[1]);
    }
  }

  /** The encoding works byte by byte: it distributes over concatenation. */
  lemma {:induction false} HexAppend(xs: seq<int8>, ys: seq<int8>)
    ensures Hex(xs + ys) == Hex(xs) + Hex(ys)
    decreases |ys|
  {
    if ys == [] {
      assert xs + ys == xs;
    } else {
      var init := ys[..|ys| - 1];
      assert (xs + ys)[..|xs + ys| - 1] == xs + init;
      assert (xs + ys)[|xs + ys| - 1] == ys[|ys| - 1];
      HexAppend(xs, init);
    }
  }

  /** The value of a lower-case hex digit. */
  function DigitValue(c: char): (d: nat)
    ensures d < 16
  {
    if '0' <= c <= '9' then c as int - '0' as int
    else if 'a' <= c <= 'f' then c as int - 'a' as int + 10
    else 0
  }

  lemma DigitValueInverts(d: nat)
    requires d < 16
    ensures DigitValue(HexDigit(d)) == d
  {
  }

  /** Two hex digits read back as a signed byte. */
  function FromNibbles(hi: char, lo: char): int8 {
    var v := 16 * DigitValue(hi) + DigitValue(lo);
    if v >= 128 then (v - 256) as int8 else v as int8
  }

  /** Decoding pairs of hex digits back into bytes. */
  function Unhex(s: string): seq<int8>
    decreases |s|
  {
    if |s| < 2 then [] else Unhex(s[..|s| - 2]) + [FromNibbles(s[|s| - 2], s[|s| - 1])]
  }

  lemma ByteHexInverts(b: int8)
    ensures FromNibbles(ByteHex(b)[0], ByteHex(b)[1]) == b
  {
    var u := Unsigned(b);
    DigitValueInverts(u / 16);
    DigitValueInverts(u % 16);
  }

  /** No information is lost: decoding the hex string gives the bytes back. */
  lemma {:induction false} UnhexHex(bs: seq<int8>)
    ensures Unhex(Hex(bs)) == bs
  {
    if bs != [] {
      var init := bs[..|bs| - 1];
      var last := bs[|bs| - 1];
      var s := Hex(bs);
      var b := ByteHex(last);
      assert s == Hex(init) + b;
      assert s[..|s| - 2] == Hex(init);
      assert s[|s| - 2] == b[0] && s[|s| - 1] == b[1];
      ByteHexInverts(last);
      UnhexHex(init);
      assert Unhex(s) == Unhex(Hex(init)) + [FromNibbles(b[0], b[1])];
      assert bs == init + [last];
    }
  }

  /** Distinct byte arrays give distinct hex strings. */
  lemma HexInjective(xs: seq<int8>, ys: seq<int8>)
    requires Hex(xs) == Hex(ys)
    ensures xs == ys
  {
    UnhexHex(xs);
    UnhexHex(ys);
  }

  /** calculateAccess, with MD5 over the bytes of clientId + secret given as `md5`. */
  function CalculateAccess(clientId: string, secret: string, md5: string -> seq<int8>): (access: string)
    ensures |md5(clientId + secret)| == 16 ==> |access| == 32
    ensures forall i :: 0 <= i < |access| ==> IsLowerHexDigit(access[i])
    ensures Unhex(access) == md5(clientId + secret)
  {
    HexIsLowerCase(md5(clientId + secret));
    UnhexHex(md5(clientId + secret));
    Hex(md5(clientId + secret))
  }

  datatype DexiAuth = DexiAuth(accountId: string, access: string, authType: AuthType)

  /** The constructor (and the `from` factory that calls it). */
  function NewDexiAuth(accountId: string, secret: string, authType: AuthType, md5: string -> seq<int8>): (r: DexiAuth)
    ensures r.accountId == accountId && r.authType == authType
    ensures Unhex(r.access) == md5(accountId + secret)
  {
    DexiAuth(accountId, CalculateAccess(accountId, secret, md5), authType)
  }
}

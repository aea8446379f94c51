/** The two textual encodings the store relies on: decimal amounts and hex identifiers. */
module Text {
  import opened Basics

  // ---- decimal strings (`value.to_string()` and `parse::<u64>()`) ----

  predicate IsDigit(c: char) {
    '0' <= c <= '9'
  }

  function Digit(d: nat): (c: char)
    requires d < 10
    ensures IsDigit(c) && c as int - '0' as int == d
  {
    ('0' as int + d) as char
  }

  function Decimal(n: nat): (s: string) {
    if n < 10 then [Digit(n)] else Decimal(n / 10) + [Digit(n % 10)]
  }

  /** The number a string of digits denotes; `None` if it is empty or has another character. */
  function Digits(s: string): Option<nat> {
    if |s| == 0 || !IsDigit(s[|s| - 1]) then None
    else
      var d := s[|s| - 1] as int - '0' as int;
      if |s| == 1 then Some(d)
      else
        match Digits(s[..|s| - 1])
        case None => None
        case Some(n) => Some(10 * n + d)
  }

  /** Rust's `str::parse::<u64>`: an optional plus sign, digits, and no overflow. */
  function ParseU64(s: string): Option<u64> {
    var digits := if |s| > 0 && s[0] == '+' then s[1..] else s;
    match Digits(digits)
    case None => None
    case Some(n) => if n < TWO_TO_THE_64 then Some(n) else None
  }

  /** The column reader: an unreadable amount counts as zero. */
  function ReadAmount(s: string): u64 {
    match ParseU64(s)
    case None => 0
    case Some(n) => n
  }

  lemma {:induction false} DigitsOfDecimal(n: nat)
    ensures Digits(Decimal(n)) == Some(n)
    ensures |Decimal(n)| > 0 && IsDigit(Decimal(n)[0])
  {
    if n >= 10 {
      DigitsOfDecimal(n / 10);
      var s := Decimal(n);
      assert s[..|s| - 1] == Decimal(n / 10);
    }
  }

  /** The digit of `n` at a place, counted from the right. */
  function Place(n: nat, k: nat): nat {
    if k == 0 then n % 10 else Place(n / 10, k - 1)
  }

  /** The text is base ten, most significant digit first, without leading zeros. */
  lemma {:induction false} DecimalPlaces(n: nat, k: nat)
    requires k < |Decimal(n)|
    ensures Decimal(n)[|Decimal(n)| - 1 - k] as int == '0' as int + Place(n, k)
    ensures n > 0 ==> Decimal(n)[0] != '0'
    decreases n
  {
    if n >= 10 {
      var fewer := Decimal(n / 10);
      DecimalPlaces(n / 10, if k > 0 then k - 1 else 0);
    }
  }

  /** Amounts survive the trip through the text column. */
  lemma AmountRoundTrip(n: u64)
    ensures ReadAmount(Decimal(n)) == n
  {
    DigitsOfDecimal(n);
  }

  // ---- hex strings (`hex::encode` and `hex::decode`) ----

  function Nibble(d: nat): char
    requires d < 16
  {
    if d < 10 then ('0' as int + d) as char else ('a' as int + (d - 10)) as char
  }

  function NibbleValue(c: char): (r: Option<nat>)
    ensures r.Some? ==> r.value < 16
  {
    if '0' <= c <= '9' then Some(c as int - '0' as int)
    else if 'a' <= c <= 'f' then Some(c as int - 'a' as int + 10)
    else if 'A' <= c <= 'F' then Some(c as int - 'A' as int + 10)
    else None
  }

  function HexEncode(bytes: seq<byte>): (s: string)
    ensures |s| == 2 * |bytes|
  {
    if |bytes| == 0 then ""
    else [Nibble(bytes[0] / 16), Nibble(bytes[0] % 16)] + HexEncode(bytes[1..])
  }

  function HexDecode(s: string): Option<seq<byte>> {
    if |s| == 0 then Some([])
    else if |s| == 1 then None
    else
      match (NibbleValue(s[0]), NibbleValue(s[1]), HexDecode(s[2..]))
      case (Some(hi), Some(lo), Some(rest)) => Some([16 * hi + lo] + rest)
      case _ => None
  }

  /** `decode_hex_array`: hex of exactly `n` bytes. */
  function DecodeHexArray(s: string, n: nat): Option<seq<byte>> {
    match HexDecode(s)
    case Some(bytes) => if |bytes| == n then Some(bytes) else None
    case None => None
  }

  /** Two lower-case hexadecimal characters a byte, high half first. */
  lemma {:induction false} HexChars(bytes: seq<byte>, k: nat)
    requires k < |bytes|
    ensures HexEncode(bytes)[2 * k] == "0123456789abcdef"[bytes[k] / 16]
    ensures HexEncode(bytes)[2 * k + 1] == "0123456789abcdef"[bytes[k] % 16]
  {
    if k > 0 {
      HexChars(bytes[1..], k - 1);
      assert HexEncode(bytes)[2..] == HexEncode(bytes[1..]);
    }
  }

  lemma {:induction false} HexRoundTrip(bytes: seq<byte>)
    ensures HexDecode(HexEncode(bytes)) == Some(bytes)
  {
    if |bytes| > 0 {
      HexRoundTrip(bytes[1..]);
      var s := HexEncode(bytes);
      assert s[2..] == HexEncode(bytes[1..]);
      assert bytes == [bytes[0]] + bytes[1..];
    }
  }

  predicate IsHexDigit(c: char) {
    '0' <= c <= '9' || 'a' <= c <= 'f' || 'A' <= c <= 'F'
  }

  /** Exactly the strings of an even number of hexadecimal digits, of either case, decode. */
  lemma {:induction false} HexDecodeAccepts(s: string)
    ensures HexDecode(s).Some? <==> |s| % 2 == 0 && forall k :: 0 <= k < |s| ==> IsHexDigit(s[k])
    ensures HexDecode(s).Some? ==> |HexDecode(s).value| == |s| / 2
  {
    if |s| >= 2 {
      HexDecodeAccepts(s[2..]);
      assert forall k :: 2 <= k < |s| ==> s[k] == s[2..][k - 2];
    }
  }

  /** Fixed-width decoding inverts encoding exactly when the width matches. */
  lemma HexArrayRoundTrip(bytes: seq<byte>, n: nat)
    ensures DecodeHexArray(HexEncode(bytes), n) == if |bytes| == n then Some(bytes) else None
  {
    HexRoundTrip(bytes);
  }
}

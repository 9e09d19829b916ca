/** The pieces of Go's standard library that the lookups apply to text:
    strings.TrimSpace, encoding/hex (lowercase base-16, RFC 4648 section 8),
    chainhash.Decode's acceptance test, strconv.ParseInt(s, 10, 64) and the
    `%d` formatting used in error messages. Every char of a string stands
    for one byte of the Go string. */
module Text {
  import opened Common

  // ---------------------------------------------------------------------
  // strings.TrimSpace

  /** The ASCII white space Go trims: '\t', '\n', '\v', '\f', '\r', ' '. */
  predicate IsSpace(c: char) {
    c == ' ' || c == '\t' || c == '\n' || c == '\r' || c == '\U{000B}' || c == '\U{000C}'
  }

  function TrimLeft(s: string): (r: string)
    ensures |r| <= |s| && r == s[|s| - |r|..]
    ensures r != [] ==> !IsSpace(r[0])
    ensures forall i :: 0 <= i < |s| - |r| ==> IsSpace(s[i])
  {
    if s != [] && IsSpace(s[0]) then TrimLeft(s[1..]) else s
  }

  function TrimRight(s: string): (r: string)
    ensures |r| <= |s| && r == s[..|r|]
    ensures r != [] ==> !IsSpace(r[|r| - 1])
    ensures forall i :: |r| <= i < |s| ==> IsSpace(s[i])
  {
    if s != [] && IsSpace(s[|s| - 1]) then TrimRight(s[..|s| - 1]) else s
  }

  /** The number of white-space characters `s` starts with. */
  function LeadingSpace(s: string): (n: nat)
    ensures n <= |s|
    ensures forall k :: 0 <= k < n ==> IsSpace(s[k])
    ensures n < |s| ==> !IsSpace(s[n])
  {
    if s != [] && IsSpace(s[0]) then 1 + LeadingSpace(s[1..]) else 0
  }

  /** strings.TrimSpace: the input with its leading and trailing white space
      removed, and nothing else. */
  function TrimSpace(s: string): (r: string)
    ensures LeadingSpace(s) + |r| <= |s|
    ensures r == s[LeadingSpace(s)..LeadingSpace(s) + |r|]
    ensures forall k :: LeadingSpace(s) + |r| <= k < |s| ==> IsSpace(s[k])
    ensures r != [] ==> !IsSpace(r[0]) && !IsSpace(r[|r| - 1])
  {
    var l := TrimLeft(s);
    var r := TrimRight(l);
    var i := |s| - |l|;
    assert i == LeadingSpace(s);
    assert r == s[i..i + |r|];
    r
  }

  // ---------------------------------------------------------------------
  // encoding/hex

  predicate IsHexDigit(c: char) {
    '0' <= c <= '9' || 'a' <= c <= 'f' || 'A' <= c <= 'F'
  }

  /** The digits hex.EncodeToString emits: lowercase only. */
  predicate IsLowerHexDigit(c: char) {
    '0' <= c <= '9' || 'a' <= c <= 'f'
  }

  function HexDigit(d: nat): (c: char)
    requires d < 16
    ensures IsLowerHexDigit(c) && HexValue(c) == d
  {
    if d < 10 then ('0' as int + d) as char else ('a' as int + d - 10) as char
  }

  function HexValue(c: char): (v: nat)
    requires IsHexDigit(c)
    ensures v < 16
  {
    if '0' <= c <= '9' then c as int - '0' as int
    else if 'a' <= c <= 'f' then c as int - 'a' as int + 10
    else c as int - 'A' as int + 10
  }

  /** hex.EncodeToString: two lowercase digits per byte, high nibble first. */
  function HexEncode(bs: seq<byte>): (s: string)
    ensures |s| == 2 * |bs|
    ensures forall i :: 0 <= i < |s| ==> IsLowerHexDigit(s[i])
  {
    if bs == [] then ""
    else [HexDigit(bs[0] as int / 16), HexDigit(bs[0] as int % 16)] + HexEncode(bs[1..])
  }

  const ErrLength: Error := "encoding/hex: odd length hex string"
  const ErrInvalidByte: Error := "encoding/hex: invalid byte"

  /** hex.DecodeString: accepts both letter cases; an invalid character
      anywhere is reported before an odd length. */
  function HexDecode(s: string): (r: Result<seq<byte>>)
    decreases |s|
    ensures r.Ok? <==> |s| % 2 == 0 && forall i :: 0 <= i < |s| ==> IsHexDigit(s[i])
    ensures r.Ok? ==> 2 * |r.value| == |s|
    ensures r.Ok? ==> forall i :: 0 <= i < |r.value| ==>
              r.value[i] as int == 16 * HexValue(s[2 * i]) + HexValue(s[2 * i + 1])
    ensures r.Err? ==> (r.err == ErrLength <==> forall i :: 0 <= i < |s| ==> IsHexDigit(s[i]))
    ensures r.Err? ==> r.err == ErrLength || r.err == ErrInvalidByte
  {
    if s == [] then Ok([])
    else if |s| == 1 then (if IsHexDigit(s[0]) then Err(ErrLength) else Err(ErrInvalidByte))
    else if !IsHexDigit(s[0]) || !IsHexDigit(s[1]) then Err(ErrInvalidByte)
    else
      match HexDecode(s[2..])
      case Err(e) => Err(e)
      case Ok(rest) => Ok([(HexValue(s[0]) * 16 + HexValue(s[1])) as byte] + rest)
  }

  /** Decoding what was encoded gives the bytes back. */
  lemma {:induction false} HexRoundTrip(bs: seq<byte>)
    ensures HexDecode(HexEncode(bs)) == Ok(bs)
  {
    if bs != [] {
      var s := HexEncode(bs);
      var hi, lo := bs[0] as int / 16, bs[0] as int % 16;
      assert s[0] == HexDigit(hi) && s[1] == HexDigit(lo);
      assert s[2..] == HexEncode(bs[1..]);
      HexRoundTrip(bs[1..]);
      assert HexValue(s[0]) * 16 + HexValue(s[1]) == bs[0] as int;
      assert HexDecode(s) == Ok([bs[0]] + bs[1..]);
      assert [bs[0]] + bs[1..] == bs;
    }
  }

  /** Two byte strings with the same hex text are equal: comparing hex
      texts compares the hashes they encode. */
  lemma HexEncodeInjective(a: seq<byte>, b: seq<byte>)
    requires HexEncode(a) == HexEncode(b)
    ensures a == b
  {
    HexRoundTrip(a);
    HexRoundTrip(b);
  }

  /** chainhash.Decode's padding: an odd-length hash string is decoded with
      a leading '0'. */
  function PadToEven(s: string): (p: string)
    ensures |p| % 2 == 0 && (|p| == |s| || |p| == |s| + 1)
    ensures forall i :: 0 <= i < |s| ==> p[|p| - |s| + i] == s[i]
    ensures (forall i :: 0 <= i < |p| ==> IsHexDigit(p[i])) <==> (forall i :: 0 <= i < |s| ==> IsHexDigit(s[i]))
  {
    if |s| % 2 == 0 then s
    else
      var p := "0" + s;
      assert p[0] == '0' && forall i :: 0 <= i < |s| ==> p[i + 1] == s[i];
      assert (forall i :: 0 <= i < |s| ==> IsHexDigit(s[i])) ==> (forall i :: 0 <= i < |p| ==> IsHexDigit(p[i])) by {
        if forall i :: 0 <= i < |s| ==> IsHexDigit(s[i]) {
          forall i | 0 < i < |p| ensures IsHexDigit(p[i]) {
            assert p[i] == s[i - 1];
          }
        }
      }
      p
  }
  function HashStringDecodes(s: string): (ok: bool)
    ensures ok <==> |s| <= 2 * HashSize && forall i :: 0 <= i < |s| ==> IsHexDigit(s[i])
    ensures ok ==> |HexDecode(PadToEven(s)).value| <= HashSize
  {
    var p := PadToEven(s);
    |s| <= 2 * HashSize && HexDecode(p).Ok?
  }

  // ---------------------------------------------------------------------
  // strconv.ParseInt(s, 10, 64) and decimal formatting

  const Int64Min: int := -0x8000_0000_0000_0000
  const Int64Max: int := 0x7fff_ffff_ffff_ffff

  predicate IsDigit(c: char) { '0' <= c <= '9' }

  predicate AllDigits(s: string) { forall i :: 0 <= i < |s| ==> IsDigit(s[i]) }

  /** The value of a run of decimal digits. */
  function DigitsValue(s: string): nat
    requires AllDigits(s)
  {
    if s == [] then 0 else DigitsValue(s[..|s| - 1]) * 10 + (s[|s| - 1] as int - '0' as int)
  }

  /** The text after an optional leading sign. */
  function Unsigned(s: string): string {
    if s != [] && (s[0] == '+' || s[0] == '-') then s[1..] else s
  }

  function Quote(s: string): string { "\"" + s + "\"" }

  function NumError(s: string, reason: string): Error {
    "strconv.ParseInt: parsing " + Quote(s) + ": " + reason
  }

  /** strconv.ParseInt(s, 10, 64): an optional sign, then one or more
      decimal digits, with a value that fits in 64 bits. Nothing is
      trimmed. */
  function ParseInt(s: string): (r: Result<int>)
    ensures r.Ok? ==> Int64Min <= r.value <= Int64Max
    ensures r.Ok? ==> Unsigned(s) != [] && AllDigits(Unsigned(s))
    ensures r.Ok? ==> DigitsValue(Unsigned(s)) as int == if r.value < 0 then -r.value else r.value
    ensures r.Ok? && r.value < 0 ==> s[0] == '-'
    ensures r.Ok? && r.value > 0 ==> s[0] != '-'
    ensures Unsigned(s) != [] && AllDigits(Unsigned(s)) ==>
              (r.Ok? <==> if s[0] == '-' then DigitsValue(Unsigned(s)) <= -Int64Min else DigitsValue(Unsigned(s)) <= Int64Max)
  {
    var digits := Unsigned(s);
    if digits == [] || !AllDigits(digits) then Err(NumError(s, "invalid syntax"))
    else
      var v: int := if s[0] == '-' then -(DigitsValue(digits) as int) else DigitsValue(digits);
      if v < Int64Min || v > Int64Max then Err(NumError(s, "value out of range")) else Ok(v)
  }

  /** Every text strconv.ParseInt accepts: an optional sign, any number of
      leading zeros, then the digits of a value within the int64 range. */
  lemma ParseIntAcceptsPadded(sign: string, zeros: nat, m: nat)
    requires sign == "" || sign == "+" || sign == "-"
    requires if sign == "-" then m <= -Int64Min else m <= Int64Max
    ensures ParseInt(sign + (seq(zeros, _ => '0') + DecimalDigits(m))) == Ok(if sign == "-" then -(m as int) else m)
  {
    var d := PaddedDigits(zeros, m);
    SignedDigitsParse(sign, d);
  }

  /** `zeros` zeros followed by the digits of `m`. */
  function PaddedDigits(zeros: nat, m: nat): (d: string)
    ensures d == seq(zeros, _ => '0') + DecimalDigits(m)
    ensures d != [] && AllDigits(d) && DigitsValue(d) == m
  {
    var z: string := seq(zeros, _ => '0');
    LeadingZerosValue(z, DecimalDigits(m));
    z + DecimalDigits(m)
  }

  /** A sign followed by digits parses to the signed value of the digits
      when it is in range. */
  lemma SignedDigitsParse(sign: string, d: string)
    requires sign == "" || sign == "+" || sign == "-"
    requires d != [] && AllDigits(d)
    requires if sign == "-" then DigitsValue(d) <= -Int64Min else DigitsValue(d) <= Int64Max
    ensures ParseInt(sign + d) == Ok(if sign == "-" then -(DigitsValue(d) as int) else DigitsValue(d))
  {
    assert IsDigit(d[0]);
    if sign == "" {
      assert sign + d == d;
    } else {
      assert (sign + d)[1..] == d;
    }
    assert Unsigned(sign + d) == d;
  }

  /** Zeros in front of a run of digits do not change its value. */
  lemma {:induction false} LeadingZerosValue(z: string, d: string)
    requires forall i :: 0 <= i < |z| ==> z[i] == '0'
    requires AllDigits(d)
    ensures AllDigits(z + d) && DigitsValue(z + d) == DigitsValue(d)
  {
    if d == [] {
      assert z + d == z;
      if z != [] {
        LeadingZerosValue(z[..|z| - 1], []);
        assert z[..|z| - 1] + [] == z[..|z| - 1];
      }
    } else {
      var d' := d[..|d| - 1];
      LeadingZerosValue(z, d');
      assert (z + d)[..|z + d| - 1] == z + d';
    }
  }

  /** A text with white space at either end never parses: the tip body
      must be exactly the number. */
  lemma ParseIntRejectsSpace(s: string, c: char)
    requires IsSpace(c)
    ensures ParseInt(s + [c]).Err?
    ensures ParseInt([c] + s).Err?
  {
    var t := s + [c];
    var u := Unsigned(t);
    assert u == [] || u[|u| - 1] == c;
    var t' := [c] + s;
    assert Unsigned(t') == t';
  }

  function DecimalDigits(n: nat): (s: string)
    ensures s != [] && AllDigits(s) && DigitsValue(s) == n
    ensures s[0] == '0' <==> n == 0
    ensures n == 0 ==> s == "0"
  {
    if n < 10 then [('0' as int + n) as char]
    else
      var init := DecimalDigits(n / 10);
      var s := init + [('0' as int + n % 10) as char];
      assert s[..|s| - 1] == init;
      s
  }

  /** `%d` formatting of an integer. */
  function FormatInt(n: int): (s: string)
    ensures s != [] && (s[0] == '-' <==> n < 0)
    ensures Unsigned(s) != [] && AllDigits(Unsigned(s))
    ensures DigitsValue(Unsigned(s)) as int == if n < 0 then -n else n
    ensures n >= 0 ==> AllDigits(s)
    ensures |Unsigned(s)| > 1 ==> Unsigned(s)[0] != '0'
  {
    if n < 0 then "-" + DecimalDigits(-n) else DecimalDigits(n)
  }

  /** Parsing a formatted 64-bit integer gives it back. */
  lemma ParseFormatRoundTrip(n: int)
    requires Int64Min <= n <= Int64Max
    ensures ParseInt(FormatInt(n)) == Ok(n)
  {
    var s := FormatInt(n);
    if n < 0 {
      assert Unsigned(s) == DecimalDigits(-n);
    } else {
      assert IsDigit(s[0]);
      assert Unsigned(s) == s;
    }
  }
}

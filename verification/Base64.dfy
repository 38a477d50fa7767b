/** The standard base64 encoding (section 4 of RFC 4648) as Go's `encoding/base64` implements it. */
module Base64 {

  type byte = x: int | 0 <= x < 256

  /** What a Go call gives back: a value, or a run-time panic. */
  datatype Call<+T> = Returned(value: T) | Panicked

  datatype Option<+T> = None | Some(value: T)

  function Symbol(i: int): char
    requires 0 <= i < 64
  {
    if i < 26 then ('A' as int + i) as char
    else if i < 52 then ('a' as int + i - 26) as char
    else if i < 62 then ('0' as int + i - 52) as char
    else if i == 62 then '+' else '/'
  }

  function Digit(c: char): (d: Option<int>)
    ensures d.Some? ==> 0 <= d.value < 64
  {
    if 'A' <= c <= 'Z' then Some(c as int - 'A' as int)
    else if 'a' <= c <= 'z' then Some(c as int - 'a' as int + 26)
    else if '0' <= c <= '9' then Some(c as int - '0' as int + 52)
    else if c == '+' then Some(62)
    else if c == '/' then Some(63)
    else None
  }

  lemma DigitOfSymbol(i: int)
    requires 0 <= i < 64
    ensures Digit(Symbol(i)) == Some(i)
    ensures Symbol(i) != '=' && Symbol(i) != '\0' && Symbol(i) != '\r' && Symbol(i) != '\n'
  {
  }

  /** The symbols are those of table 1 of RFC 4648, and no other character is a digit. */
  lemma Alphabet(i: int, c: char)
    requires 0 <= i < 64
    ensures i < 26 ==> Symbol(i) == "ABCDEFGHIJKLMNOPQRSTUVWXYZ"[i]
    ensures 26 <= i < 52 ==> Symbol(i) == "abcdefghijklmnopqrstuvwxyz"[i - 26]
    ensures i >= 52 ==> Symbol(i) == "0123456789+/"[i - 52]
    ensures Digit(c).Some? ==> Symbol(Digit(c).value) == c
  {
  }

  /** The four 6-bit digits of three bytes. */
  function Digits(a: byte, b: byte, c: byte): (d: (int, int, int, int))
    ensures 0 <= d.0 < 64 && 0 <= d.1 < 64 && 0 <= d.2 < 64 && 0 <= d.3 < 64
  {
    (a / 4, a % 4 * 16 + b / 16, b % 16 * 4 + c / 64, c % 64)
  }

  /** Four symbols for three bytes. */
  function Quantum(a: byte, b: byte, c: byte): (s: string)
    ensures |s| == 4
  {
    var d := Digits(a, b, c);
    [Symbol(d.0), Symbol(d.1), Symbol(d.2), Symbol(d.3)]
  }

  function Encode(src: seq<byte>): string {
    if |src| == 0 then ""
    else if |src| == 1 then Quantum(src[0], 0, 0)[..2] + "=="
    else if |src| == 2 then Quantum(src[0], src[1], 0)[..3] + "="
    else Quantum(src[0], src[1], src[2]) + Encode(src[3..])
  }

  /** `StdEncoding.EncodedLen`. */
  function EncodedLen(n: nat): nat {
    (n + 2) / 3 * 4
  }

  lemma EncodedLenStep(n: nat)
    requires n >= 3
    ensures EncodedLen(n) == 4 + EncodedLen(n - 3)
  {
  }

  lemma EncodedLenSplit(n: nat, si: nat, di: nat)
    requires si <= n && 3 * di == 4 * si
    ensures EncodedLen(n) == di + EncodedLen(n - si)
    ensures n - si >= 3 ==> EncodedLen(n - si) >= 4
  {
  }

  /** Three bytes from four digits. */
  function Bytes(p: int, q: int, r: int, s: int): (b: (byte, byte, byte))
    requires 0 <= p < 64 && 0 <= q < 64 && 0 <= r < 64 && 0 <= s < 64
  {
    (p * 4 + q / 16, q % 16 * 16 + r / 4, r % 4 * 64 + s)
  }

  lemma SplitBy16(x: int, y: int)
    requires 0 <= x && 0 <= y < 16
    ensures (x * 16 + y) / 16 == x && (x * 16 + y) % 16 == y
  {
  }

  lemma SplitBy4(x: int, y: int)
    requires 0 <= x && 0 <= y < 4
    ensures (x * 4 + y) / 4 == x && (x * 4 + y) % 4 == y
  {
  }

  lemma BytesOfDigits(a: byte, b: byte, c: byte)
    ensures var d := Digits(a, b, c); Bytes(d.0, d.1, d.2, d.3) == (a, b, c)
  {
    SplitBy16(a % 4, b / 16);
    SplitBy4(b % 16, c / 64);
  }

  /** Line breaks are skipped by the decoder. */
  function WithoutBreaks(s: string): string {
    if s == "" then ""
    else if s[0] == '\r' || s[0] == '\n' then WithoutBreaks(s[1..])
    else [s[0]] + WithoutBreaks(s[1..])
  }

  function DecodeQuanta(s: string): Option<seq<byte>> {
    if s == "" then Some([])
    else if |s| < 4 || Digit(s[0]).None? || Digit(s[1]).None? then None
    else
      var p, q := Digit(s[0]).value, Digit(s[1]).value;
      if s[2] == '=' then
        if s[3] == '=' && |s| == 4 then Some([Bytes(p, q, 0, 0).0]) else None
      else if Digit(s[2]).None? then None
      else
        var r := Digit(s[2]).value;
        if s[3] == '=' then
          if |s| == 4 then Some([Bytes(p, q, r, 0).0, Bytes(p, q, r, 0).1]) else None
        else if Digit(s[3]).None? then None
        else
          var b := Bytes(p, q, r, Digit(s[3]).value);
          var rest := DecodeQuanta(s[4..]);
          if rest.None? then None else Some([b.0, b.1, b.2] + rest.value)
  }

  /** `StdEncoding.DecodeString`. */
  function Decode(s: string): Option<seq<byte>> {
    DecodeQuanta(WithoutBreaks(s))
  }

  /** The encoding's length, and that no character of it is a NUL or a line break. */
  lemma {:induction false} EncodeCharacters(src: seq<byte>)
    ensures |Encode(src)| == EncodedLen(|src|)
    ensures forall k :: 0 <= k < |Encode(src)| ==> Encode(src)[k] !in {'\0', '\r', '\n'}
  {
    if |src| >= 3 {
      EncodeCharacters(src[3..]);
      EncodedLenStep(|src|);
      QuantumIsPlain(src[0], src[1], src[2]);
    } else if |src| >= 1 {
      QuantumIsPlain(src[0], if |src| == 2 then src[1] else 0, 0);
    }
  }

  /** The three bytes from `3 * q` on as one number, missing ones being zero. */
  function Triple(src: seq<byte>, q: nat): int {
    var b0: int := if 3 * q < |src| then src[3 * q] else 0;
    var b1: int := if 3 * q + 1 < |src| then src[3 * q + 1] else 0;
    var b2: int := if 3 * q + 2 < |src| then src[3 * q + 2] else 0;
    b0 * 65536 + b1 * 256 + b2
  }

  /** Each four characters stand for the four 6-bit digits of three bytes taken as one number, missing bytes being
      zero; characters that stand for missing bytes alone are `=`. */
  lemma {:induction false} EncodeQuantum(src: seq<byte>, q: nat) returns (d: (int, int, int, int))
    requires 3 * q < |src|
    ensures 0 <= d.0 < 64 && 0 <= d.1 < 64 && 0 <= d.2 < 64 && 0 <= d.3 < 64
    ensures d.0 * 262144 + d.1 * 4096 + d.2 * 64 + d.3 == Triple(src, q)
    ensures |Encode(src)| >= 4 * q + 4
    ensures Encode(src)[4 * q] == Symbol(d.0) && Encode(src)[4 * q + 1] == Symbol(d.1)
    ensures Encode(src)[4 * q + 2] == if 3 * q + 1 < |src| then Symbol(d.2) else '='
    ensures Encode(src)[4 * q + 3] == if 3 * q + 2 < |src| then Symbol(d.3) else '='
  {
    if q == 0 {
      d := DigitsOfNumber(src[0], if |src| > 1 then src[1] else 0, if |src| > 2 then src[2] else 0);
    } else {
      d := EncodeQuantum(src[3..], q - 1);
      assert Encode(src) == Quantum(src[0], src[1], src[2]) + Encode(src[3..]);
    }
  }

  lemma DigitsOfNumber(a: byte, b: byte, c: byte) returns (d: (int, int, int, int))
    ensures d == Digits(a, b, c)
    ensures d.0 * 262144 + d.1 * 4096 + d.2 * 64 + d.3 == a * 65536 + b * 256 + c
  {
    d := Digits(a, b, c);
  }

  /** A text decodes exactly if, line breaks apart, its length is a multiple of four and it consists of digits but for
      one or two `=` at the end. */
  lemma DecodableIff(s: string)
    ensures var t := WithoutBreaks(s);
            Decode(s).Some? <==> |t| % 4 == 0 && forall k :: 0 <= k < |t| ==> DigitOrPadding(t, k)
  {
    QuantaDecodableIff(WithoutBreaks(s));
  }

  predicate DigitOrPadding(t: string, k: int)
    requires 0 <= k < |t|
  {
    Digit(t[k]).Some? || (t[k] == '=' && (k == |t| - 1 || (k == |t| - 2 && t[|t| - 1] == '=')))
  }

  lemma {:induction false} QuantaDecodableIff(t: string)
    ensures DecodeQuanta(t).Some? <==> |t| % 4 == 0 && forall k :: 0 <= k < |t| ==> DigitOrPadding(t, k)
  {
    if |t| >= 4 {
      assert DigitOrPadding(t, 0) ==> Digit(t[0]).Some?;
      assert DigitOrPadding(t, 1) ==> Digit(t[1]).Some?;
      var rest := t[4..];
      QuantaDecodableIff(rest);
      assert forall k :: 4 <= k < |t| ==> (DigitOrPadding(t, k) <==> DigitOrPadding(rest, k - 4));
      if forall k :: 0 <= k < |t| ==> DigitOrPadding(t, k) {
        forall k | 0 <= k < |rest| ensures DigitOrPadding(rest, k) {
          assert DigitOrPadding(t, k + 4);
        }
        assert DigitOrPadding(t, 2) && DigitOrPadding(t, 3);
      }
    } else if t != "" {
      assert |t| % 4 != 0;
    }
  }

  /** A character that is neither a digit nor padding nor a line break makes decoding fail. */
  lemma ForeignCharacter(s: string, c: char)
    requires c in s && c !in "ABCDEFGHIJKLMNOPQRSTUVWXYZabcdefghijklmnopqrstuvwxyz0123456789+/=\r\n"
    ensures Decode(s).None?
  {
    BreaksOnly(s, c);
    DecodableIff(s);
    if Digit(c).Some? {
      Alphabet(Digit(c).value, c);
    }
    var t := WithoutBreaks(s);
    var k :| 0 <= k < |t| && t[k] == c;
    assert !DigitOrPadding(t, k);
  }

  lemma {:induction false} BreaksOnly(s: string, c: char)
    requires c in s && c != '\r' && c != '\n'
    ensures c in WithoutBreaks(s)
  {
    if s[0] != c {
      BreaksOnly(s[1..], c);
    }
  }

  lemma EncodeIsPlain(src: seq<byte>)
    ensures |Encode(src)| == EncodedLen(|src|)
    ensures forall k :: 0 <= k < |Encode(src)| ==> Encode(src)[k] != '\0'
    ensures WithoutBreaks(Encode(src)) == Encode(src)
  {
    EncodeCharacters(src);
    WithoutBreaksPrefix(Encode(src), "");
    assert Encode(src) + "" == Encode(src);
  }

  lemma QuantumIsPlain(a: byte, b: byte, c: byte)
    ensures forall k :: 0 <= k < 4 ==> Quantum(a, b, c)[k] !in {'=', '\0', '\r', '\n'}
  {
  }

  lemma {:induction false} WithoutBreaksPrefix(s: string, rest: string)
    requires forall k :: 0 <= k < |s| ==> s[k] != '\r' && s[k] != '\n'
    ensures WithoutBreaks(s + rest) == s + WithoutBreaks(rest)
  {
    if s == "" {
      assert s + rest == rest;
    } else {
      WithoutBreaksPrefix(s[1..], rest);
      assert (s + rest)[1..] == s[1..] + rest;
    }
  }

  lemma QuantumRoundTrip(a: byte, b: byte, c: byte)
    ensures var s := Quantum(a, b, c);
            var d := Digits(a, b, c);
            Digit(s[0]) == Some(d.0) && Digit(s[1]) == Some(d.1) && Digit(s[2]) == Some(d.2) && Digit(s[3]) == Some(d.3)
  {
    var d := Digits(a, b, c);
    DigitOfSymbol(d.0);
    DigitOfSymbol(d.1);
    DigitOfSymbol(d.2);
    DigitOfSymbol(d.3);
  }

  lemma FullQuantum(a: byte, b: byte, c: byte, rest: string, tail: seq<byte>)
    requires DecodeQuanta(rest) == Some(tail)
    ensures DecodeQuanta(Quantum(a, b, c) + rest) == Some([a, b, c] + tail)
  {
    QuantumRoundTrip(a, b, c);
    QuantumIsPlain(a, b, c);
    BytesOfDigits(a, b, c);
    var s := Quantum(a, b, c) + rest;
    assert s[..4] == Quantum(a, b, c) && s[4..] == rest;
    assert s[0] == Quantum(a, b, c)[0] && s[1] == Quantum(a, b, c)[1] && s[2] == Quantum(a, b, c)[2] &&
           s[3] == Quantum(a, b, c)[3];
  }

  lemma PaddedQuantum(a: byte, b: byte)
    ensures DecodeQuanta(Quantum(a, 0, 0)[..2] + "==") == Some([a])
    ensures DecodeQuanta(Quantum(a, b, 0)[..3] + "=") == Some([a, b])
  {
    QuantumRoundTrip(a, 0, 0);
    QuantumRoundTrip(a, b, 0);
    QuantumIsPlain(a, b, 0);
    BytesOfDigits(a, 0, 0);
    BytesOfDigits(a, b, 0);
  }

  lemma PaddedRoundTrip(src: seq<byte>)
    requires 1 <= |src| <= 2
    ensures DecodeQuanta(Encode(src)) == Some(src)
  {
    if |src| == 1 {
      PaddedQuantum(src[0], 0);
      assert [src[0]] == src;
    } else {
      PaddedQuantum(src[0], src[1]);
      assert [src[0], src[1]] == src;
    }
  }

  lemma FirstThree(src: seq<byte>)
    requires |src| >= 3
    ensures [src[0], src[1], src[2]] + src[3..] == src
  {
  }

  lemma {:induction false} QuantaRoundTrip(src: seq<byte>)
    ensures DecodeQuanta(Encode(src)) == Some(src)
  {
    if |src| >= 3 {
      QuantaRoundTrip(src[3..]);
      FirstThree(src);
      FullQuantum(src[0], src[1], src[2], Encode(src[3..]), src[3..]);
    } else if |src| >= 1 {
      PaddedRoundTrip(src);
    }
  }

  /** Decoding undoes encoding, for every byte string. */
  lemma RoundTrip(src: seq<byte>)
    ensures Decode(Encode(src)) == Some(src)
  {
    EncodeIsPlain(src);
    QuantaRoundTrip(src);
  }

  /** `StdEncoding.Encode(dst, src)`: writes the encoding at the start of `dst` and leaves the rest alone. */
  method EncodeInto(dst: array<char>, src: seq<byte>)
    requires EncodedLen(|src|) <= dst.Length
    modifies dst
    ensures dst[..EncodedLen(|src|)] == Encode(src)
    ensures dst[EncodedLen(|src|)..] == old(dst[EncodedLen(|src|)..])
  {
    var di, si := PutQuanta(dst, src);
    EncodedLenSplit(|src|, si, di);
    PutRemainder(dst, di, src[si..]);
  }

  /** The loop over the full quanta: `si` bytes are consumed and `di` characters written. */
  method PutQuanta(dst: array<char>, src: seq<byte>) returns (di: nat, si: nat)
    requires EncodedLen(|src|) <= dst.Length
    modifies dst
    ensures si <= |src| < si + 3 && 3 * di == 4 * si && di <= dst.Length
    ensures dst[..di] + Encode(src[si..]) == Encode(src)
    ensures dst[di..] == old(dst[di..])
  {
    ghost var start := dst[..];
    di, si := 0, 0;
    while si + 3 <= |src|
      invariant si <= |src| && 3 * di == 4 * si
      invariant dst[..di] + Encode(src[si..]) == Encode(src)
      invariant di <= dst.Length && dst[di..] == start[di..]
    {
      EncodedLenSplit(|src|, si, di);
      assert start[di..][4..] == start[di + 4..];
      PutQuantum(dst, di, src, si);
      si, di := si + 3, di + 4;
    }
  }

  method PutQuantum(dst: array<char>, di: nat, src: seq<byte>, si: nat)
    requires di + 4 <= dst.Length && si + 3 <= |src|
    modifies dst
    ensures dst[..di + 4] + Encode(src[si + 3..]) == old(dst[..di]) + Encode(src[si..])
    ensures dst[di + 4..] == old(dst[di + 4..])
  {
    var d := Digits(src[si], src[si + 1], src[si + 2]);
    dst[di], dst[di + 1], dst[di + 2], dst[di + 3] := Symbol(d.0), Symbol(d.1), Symbol(d.2), Symbol(d.3);
    assert src[si..][3..] == src[si + 3..];
    assert dst[..di + 4] == old(dst[..di]) + Quantum(src[si], src[si + 1], src[si + 2]);
  }

  method PutRemainder(dst: array<char>, di: nat, rest: seq<byte>)
    requires di + EncodedLen(|rest|) <= dst.Length && |rest| <= 2
    modifies dst
    ensures dst[..di + EncodedLen(|rest|)] == old(dst[..di]) + Encode(rest)
    ensures dst[di + EncodedLen(|rest|)..] == old(dst[di + EncodedLen(|rest|)..])
  {
    if |rest| > 0 {
      var d := Digits(rest[0], if |rest| == 2 then rest[1] else 0, 0);
      dst[di], dst[di + 1], dst[di + 3] := Symbol(d.0), Symbol(d.1), '=';
      dst[di + 2] := if |rest| == 2 then Symbol(d.2) else '=';
      assert dst[di..di + 4] == Encode(rest);
      assert dst[..di + 4] == dst[..di] + dst[di..di + 4];
    }
  }

  /** `bytes.Trim(s, "\x00")`. */
  function TrimNul(s: string): string {
    TrimRight(TrimLeft(s))
  }

  function TrimLeft(s: string): string {
    if s != "" && s[0] == '\0' then TrimLeft(s[1..]) else s
  }

  function TrimRight(s: string): string {
    if s != "" && s[|s| - 1] == '\0' then TrimRight(s[..|s| - 1]) else s
  }

  /** Trimming an encoding followed by NULs leaves exactly the encoding. */
  lemma {:induction false} TrimPadded(text: string, padding: string)
    requires forall k :: 0 <= k < |text| ==> text[k] != '\0'
    requires forall k :: 0 <= k < |padding| ==> padding[k] == '\0'
    ensures TrimNul(text + padding) == text
  {
    if text == "" {
      TrimLeftAll(padding);
      assert text + padding == padding;
    } else {
      assert TrimLeft(text + padding) == text + padding;
      TrimRightAll(text, padding);
    }
  }

  lemma {:induction false} TrimLeftAll(padding: string)
    requires forall k :: 0 <= k < |padding| ==> padding[k] == '\0'
    ensures TrimLeft(padding) == ""
  {
    if padding != "" { TrimLeftAll(padding[1..]); }
  }

  lemma {:induction false} TrimRightAll(text: string, padding: string)
    requires forall k :: 0 <= k < |text| ==> text[k] != '\0'
    requires forall k :: 0 <= k < |padding| ==> padding[k] == '\0'
    ensures TrimRight(text + padding) == text
  {
    if padding == "" {
      assert text + padding == text;
    } else {
      TrimRightAll(text, padding[..|padding| - 1]);
      assert (text + padding)[..|text + padding| - 1] == text + padding[..|padding| - 1];
    }
  }

  /** Encoding through a NUL-filled buffer of `size` characters, as both callers do it; Go panics on a short buffer. */
  method EncodeTrimmed(size: nat, src: seq<byte>) returns (text: Call<string>)
    ensures text == if EncodedLen(|src|) <= size then Returned(Encode(src)) else Panicked
  {
    var val := new char[size](_ => '\0');
    if size < EncodedLen(|src|) {
      return Panicked;
    }
    EncodeIsPlain(src);
    EncodeInto(val, src);
    ghost var padding := seq(size, _ => '\0')[EncodedLen(|src|)..];
    TrimPadded(Encode(src), padding);
    assert val[..] == Encode(src) + padding;
    text := Returned(TrimNul(val[..]));
  }
}

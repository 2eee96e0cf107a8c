/**
 * Record layouts and size arithmetic of the TRB3/HLD unpacker (JPetUnpackTaskTools).
 *
 * `size_t` is 64 bits wide: every size computation that the unpacker does in
 * `size_t` is written here with an explicit wrap modulo 2^64, so that the
 * corruption checks that rely on that wrap can be stated.
 */
module UnpackTools {

  /** A byte and an unsigned 32-bit word, as the integers they hold. */
  type byte = x: int | 0 <= x < 0x100
  type word = x: int | 0 <= x < 0x1_0000_0000

  /** 2^64: the modulus of `size_t` arithmetic. */
  const SizeMod: int := 0x1_0000_0000_0000_0000

  /** A value reduced to `size_t`. */
  function Wrap(x: int): (r: nat)
    ensures r < SizeMod
    ensures 0 <= x < SizeMod ==> r == x
    ensures x < 0 && -SizeMod <= x ==> r == x + SizeMod
  {
    x % SizeMod
  }

  // ---------------------------------------------------------------------------
  // Words and fixed layouts
  // ---------------------------------------------------------------------------

  /** The word held by four bytes in memory, read natively (little-endian host). */
  function LeWord(b: seq<byte>): word
    requires |b| == 4
  {
    (b[0] as int) + 0x100 * ((b[1] as int) + 0x100 * ((b[2] as int) + 0x100 * (b[3] as int)))
  }

  /** The four bytes a word occupies in memory on a little-endian host, least significant first. */
  function LeBytes(w: word): (b: seq<byte>)
    ensures |b| == 4
  {
    [w % 0x100, w / 0x100 % 0x100, w / 0x100 / 0x100 % 0x100, w / 0x100 / 0x100 / 0x100]
  }

  /** Splitting a number into its low byte and the rest. */
  lemma ByteSplit(lo: int, hi: int)
    requires 0 <= lo < 0x100 && 0 <= hi
    ensures (lo + 0x100 * hi) % 0x100 == lo && (lo + 0x100 * hi) / 0x100 == hi
  {
  }

  lemma LeWordBytes(w: word)
    ensures LeWord(LeBytes(w)) == w
  {
  }

  lemma LeBytesWord(b: seq<byte>)
    requires |b| == 4
    ensures LeBytes(LeWord(b)) == b
  {
    ByteSplit(b[0], (b[1] as int) + 0x100 * ((b[2] as int) + 0x100 * (b[3] as int)));
    ByteSplit(b[1], (b[2] as int) + 0x100 * (b[3] as int));
    ByteSplit(b[2], b[3]);
  }

  /** The complete 32-bit words of a byte buffer, in order; a trailing partial word is dropped. */
  function Words(b: seq<byte>): (ws: seq<word>)
    ensures |ws| == |b| / 4
    decreases |b|
  {
    if |b| < 4 then [] else [LeWord(b[..4])] + Words(b[4..])
  }

  /** The bytes a sequence of words occupies in memory. */
  function EncodeWords(ws: seq<word>): (b: seq<byte>)
    ensures |b| == 4 * |ws|
  {
    if ws == [] then [] else LeBytes(ws[0]) + EncodeWords(ws[1..])
  }

  /** Reading back the memory image of some words gives the same words. */
  lemma {:induction false} WordsRoundTrip(ws: seq<word>)
    ensures Words(EncodeWords(ws)) == ws
  {
    if ws != [] {
      var b := EncodeWords(ws);
      assert b[..4] == LeBytes(ws[0]);
      assert b[4..] == EncodeWords(ws[1..]);
      LeWordBytes(ws[0]);
      WordsRoundTrip(ws[1..]);
    }
  }

  /** The record header: eight unsigned 32-bit fields. */
  datatype Hdr = Hdr(fullSize: word, decoding: word, id: word, seqNr: word,
                     date: word, time: word, runNr: word, pad: word)
  {
    function Fields(): seq<word> { [fullSize, decoding, id, seqNr, date, time, runNr, pad] }
  }

  /** The subheader of one hub payload: four unsigned 32-bit fields. */
  datatype SubHdr = SubHdr(size: word, decoding: word, hubAddress: word, trgNr: word)
  {
    function Fields(): seq<word> { [size, decoding, hubAddress, trgNr] }
  }

  /** `sizeof(HDR)`: four bytes per field. */
  function HdrSize(): (n: nat)
    ensures n == 32
  {
    4 * |Hdr(0, 0, 0, 0, 0, 0, 0, 0).Fields()|
  }

  /** `sizeof(subHDR)`: four bytes per field. */
  function SubHdrSize(): (n: nat)
    ensures n == 16
  {
    4 * |SubHdr(0, 0, 0, 0).Fields()|
  }

  /** The header that the raw read into the `HDR` structure produces: its fields are the words of the 32 bytes, in order. */
  function ParseHdr(b: seq<byte>): (h: Hdr)
    requires |b| == HdrSize()
    ensures h.Fields() == Words(b)
  {
    var ws := Words(b);
    Hdr(ws[0], ws[1], ws[2], ws[3], ws[4], ws[5], ws[6], ws[7])
  }

  /** The subheader that the raw read into the `subHDR` structure produces. */
  function ParseSubHdr(b: seq<byte>): (s: SubHdr)
    requires |b| == SubHdrSize()
    ensures s.Fields() == Words(b)
  {
    var ws := Words(b);
    SubHdr(ws[0], ws[1], ws[2], ws[3])
  }

  /** A header survives being laid out in memory and read back. */
  lemma HdrRoundTrip(h: Hdr)
    ensures |EncodeWords(h.Fields())| == HdrSize() && ParseHdr(EncodeWords(h.Fields())) == h
  {
    WordsRoundTrip(h.Fields());
  }

  lemma SubHdrRoundTrip(s: SubHdr)
    ensures |EncodeWords(s.Fields())| == SubHdrSize() && ParseSubHdr(EncodeWords(s.Fields())) == s
  {
    WordsRoundTrip(s.Fields());
  }

  // ---------------------------------------------------------------------------
  // Padding and sizes
  // ---------------------------------------------------------------------------

  /** `align8`: `8 * ((i - 1) / 8 + 1)` computed in `size_t`. */
  function Align8(i: nat): (r: nat)
    requires i < SizeMod
    ensures r < SizeMod
  {
    Wrap(8 * (Wrap(i - 1) / 8 + 1))
  }

  /** `align8(0)`: `0 - 1` underflows to 2^64 - 1 and the product wraps back to 0. */
  lemma Align8Zero()
    ensures Align8(0) == 0
  {
    assert Wrap(0 - 1) == SizeMod - 1;
    assert (SizeMod - 1) / 8 + 1 == SizeMod / 8;
  }

  /** Away from both ends of `size_t`, `align8` pads up to the next multiple of 8. */
  lemma Align8Bounds(i: nat)
    requires 1 <= i <= SizeMod - 8
    ensures Align8(i) % 8 == 0 && i <= Align8(i) && Align8(i) - i < 8
  {
    var q := (i - 1) / 8;
    assert Wrap(i - 1) == i - 1;
    assert 8 * q <= i - 1 < 8 * q + 8;
    assert 8 * (q + 1) < SizeMod;
    assert Align8(i) == 8 * (q + 1);
  }

  /** Within the last 7 values of `size_t` the rounding wraps to 0. */
  lemma Align8Top(i: nat)
    requires SizeMod - 8 < i < SizeMod
    ensures Align8(i) == 0
  {
    assert Wrap(i - 1) == i - 1;
    assert (i - 1) / 8 == SizeMod / 8 - 1;
  }

  /** `align8` is idempotent on every `size_t` value. */
  lemma Align8Idempotent(i: nat)
    requires i < SizeMod
    ensures Align8(Align8(i)) == Align8(i)
  {
    if i == 0 {
      Align8Zero();
    } else if i <= SizeMod - 8 {
      Align8Bounds(i);
      var r := Align8(i);
      assert 8 <= r <= SizeMod - 8;
      assert Wrap(r - 1) == r - 1;
      assert (r - 1) / 8 + 1 == r / 8;
    } else {
      Align8Top(i);
      Align8Zero();
    }
  }

  /** The size field of a subheader, byte-swapped first when the file's byte order asks for it. */
  function SizeField(sub: SubHdr, doReverseHex: bool): word
  {
    if doReverseHex then ReverseHex(sub.size) else sub.size
  }

  /**
   * `size - 16` for a 32-bit declared size. After the byte swap the subtraction
   * is in `size_t`, the type the swap returns; on the plain field it is in the
   * 32-bit unsigned type of the field, and only the result is widened.
   */
  function DataSizeOf(s: nat, swapped: bool): (r: nat)
    requires s < 0x1_0000_0000
    ensures r < SizeMod
    ensures !swapped ==> r < 0x1_0000_0000
  {
    if swapped then Wrap(s - SubHdrSize()) else (s - SubHdrSize()) % 0x1_0000_0000
  }

  /** `getDataSize`: the subheader size (byte-swapped first when asked) minus 16. */
  function GetDataSize(sub: SubHdr, doReverseHex: bool): (r: nat)
    ensures r < SizeMod
    ensures !doReverseHex ==> r < 0x1_0000_0000
  {
    DataSizeOf(SizeField(sub, doReverseHex), doReverseHex)
  }

  /**
   * A declared size of at least 16 gives the payload length on both paths; a
   * smaller one wraps to 2^32 + s - 16 on the plain path and to 2^64 + s - 16
   * after the byte swap.
   */
  lemma DataSizeCases(s: nat, swapped: bool)
    requires s < 0x1_0000_0000
    ensures s >= 16 ==> DataSizeOf(s, swapped) == s - 16
    ensures s < 16 && !swapped ==> DataSizeOf(s, swapped) == 0x1_0000_0000 + s - 16
    ensures s < 16 && swapped ==> DataSizeOf(s, swapped) == SizeMod + s - 16
  {
    SubtractInt(s, 16);
  }

  /** `n - k` in `size_t` for a 32-bit n and a small k. */
  lemma SubtractInt(n: int, k: nat)
    requires 0 <= n < 0x1_0000_0000 && k <= 32
    ensures n >= k ==> Wrap(n - k) == n - k
    ensures n < k ==> Wrap(n - k) == SizeMod + n - k
  {
  }

  /** `getPaddedDataSize`. */
  function GetPaddedDataSize(sub: SubHdr, doReverseHex: bool): (r: nat)
    ensures r < SizeMod
  {
    Align8(GetDataSize(sub, doReverseHex))
  }

  /**
   * The padding skipped after a payload is between 0 and 7 bytes whenever the
   * data size is a 32-bit value: always on the plain path, and for a declared
   * size of at least 16 after the byte swap.
   */
  lemma PaddingBounded(sub: SubHdr, doReverseHex: bool)
    requires !doReverseHex || SizeField(sub, doReverseHex) >= 16
    ensures var d := GetDataSize(sub, doReverseHex);
            var p := GetPaddedDataSize(sub, doReverseHex);
            p % 8 == 0 && d <= p && p - d < 8
  {
    var s := SizeField(sub, doReverseHex);
    DataSizeCases(s, doReverseHex);
    PadSmall(DataSizeOf(s, doReverseHex));
  }

  /** A 32-bit size pads to the next multiple of 8, and 0 pads to 0. */
  lemma PadSmall(d: nat)
    requires d < 0x1_0000_0000
    ensures Align8(d) % 8 == 0 && d <= Align8(d) && Align8(d) - d < 8
  {
    if d == 0 {
      Align8Zero();
    } else {
      Align8Bounds(d);
    }
  }

  /** `getDataLength`: the words after the header, `((fullSize - 32) + 3) / 4` in `size_t`. */
  function GetDataLength(hdr: Hdr): nat
  {
    Wrap(Wrap(hdr.fullSize - HdrSize()) + 3) / 4
  }

  /** For a full size of at least 32 the data length is the payload byte count rounded up to words. */
  lemma DataLengthRoundsUp(hdr: Hdr)
    requires hdr.fullSize >= HdrSize()
    ensures var n := hdr.fullSize - HdrSize();
            4 * GetDataLength(hdr) >= n && 4 * GetDataLength(hdr) < n + 4
  {
    SubtractInt(hdr.fullSize, 32);
  }

  /** Full sizes 29, 30 and 31 wrap twice and give a data length of 0. */
  lemma DataLengthShortWraps(hdr: Hdr)
    requires 29 <= hdr.fullSize < 32
    ensures GetDataLength(hdr) == 0
  {
    var f: int := hdr.fullSize;
    assert Wrap(f - 32) == SizeMod + f - 32;
    assert Wrap(SizeMod + f - 32 + 3) == f - 29;
  }

  /** `getPaddedFullSize`. */
  function GetPaddedFullSize(hdr: Hdr): nat
  {
    Align8(hdr.fullSize)
  }

  /** The padded full size is the next multiple of 8; a zero full size pads to 0. */
  lemma PaddedFullSizeBounds(hdr: Hdr)
    ensures var f: int := hdr.fullSize;
            var r := GetPaddedFullSize(hdr);
            (f != 0 ==> r % 8 == 0 && f <= r < f + 8) && (f == 0 ==> r == 0)
  {
    var f: int := hdr.fullSize;
    assert 0 <= f < 0x1_0000_0000;
    if f == 0 { Align8Zero(); } else { Align8Bounds(f); }
  }

  // ---------------------------------------------------------------------------
  // Byte order
  // ---------------------------------------------------------------------------

  /** Byte k (k = 0 is the least significant) of a word. */
  function ByteOf(w: word, k: nat): byte
    requires k < 4
  {
    LeBytes(w)[k]
  }

  /**
   * `reverseHex` as intended: the four bytes of an unsigned word in reverse
   * order, byte k moving to byte 3 - k.
   */
  function ReverseHex(n: word): (r: word)
    ensures ByteOf(r, 0) == ByteOf(n, 3) && ByteOf(r, 1) == ByteOf(n, 2)
    ensures ByteOf(r, 2) == ByteOf(n, 1) && ByteOf(r, 3) == ByteOf(n, 0)
  {
    var b := LeBytes(n);
    LeBytesWord([b[3], b[2], b[1], b[0]]);
    LeWord([b[3], b[2], b[1], b[0]])
  }

  /** Swapping twice gives the word back. */
  lemma ReverseHexInvolution(n: word)
    ensures ReverseHex(ReverseHex(n)) == n
  {
    var b := LeBytes(n);
    var r := ReverseHex(n);
    assert LeBytes(r) == [b[3], b[2], b[1], b[0]];
    assert LeBytes(ReverseHex(r)) == b;
    LeWordBytes(n);
    LeWordBytes(ReverseHex(r));
  }

  /** Read natively and swapped, four bytes give the big-endian word they spell. */
  lemma ReverseHexReadsBigEndian(b: seq<byte>)
    requires |b| == 4
    ensures ReverseHex(LeWord(b)) == LeWord([b[3], b[2], b[1], b[0]])
  {
    LeBytesWord(b);
  }

  /** A 32-bit pattern read as a two's complement `int`. */
  function ToInt32(x: word): int
  {
    if x < 0x8000_0000 then x else x - 0x1_0000_0000
  }

  /**
   * `reverseHex` as written. Each mask keeps one byte in an `int` local:
   * `a << 24` overflows into the sign bit when the low byte is 0x80 or more,
   * the top-byte mask is negative as an `int` when bit 31 is set, and
   * `d >>= 24` then shifts arithmetically. The set bits of a, b, c and a
   * non-negative d are disjoint, so their OR is their sum; a negative d has
   * bits 8 and up all set, so the OR is d itself. The `int` result is
   * sign-extended into the `size_t` the function returns.
   */
  function ReverseHexAsWritten(n: word): (r: nat)
    ensures r < SizeMod
  {
    var a := ToInt32(ByteOf(n, 0) * 0x100_0000);
    var b := ByteOf(n, 1) * 0x1_0000;
    var c := ByteOf(n, 2) * 0x100;
    var d := ToInt32(ByteOf(n, 3) * 0x100_0000) / 0x100_0000;
    Wrap(if d < 0 then d else a + b + c + d)
  }

  /** The top byte of a word after the arithmetic shift: negative exactly when bit 31 is set. */
  lemma ShiftedTopByte(t: byte)
    ensures ToInt32(t * 0x100_0000) / 0x100_0000 == if t < 0x80 then t else t - 0x100
  {
  }

  /** The byte swap spelled out in place values. */
  lemma ReverseHexValue(n: word)
    ensures ReverseHex(n) == ByteOf(n, 3) + 0x100 * ByteOf(n, 2) + 0x1_0000 * ByteOf(n, 1) + 0x100_0000 * ByteOf(n, 0)
  {
  }

  /** Bit 31 of a word is set exactly when its top byte is 0x80 or more. */
  lemma TopBit(n: word)
    ensures n < 0x8000_0000 <==> ByteOf(n, 3) < 0x80
  {
  }

  /** With both bit 31 and bit 7 clear, the written code computes the byte swap. */
  lemma AsWrittenAgrees(n: word)
    requires n < 0x8000_0000 && n % 0x100 < 0x80
    ensures ReverseHexAsWritten(n) == ReverseHex(n)
  {
    ShiftedTopByte(ByteOf(n, 3));
    ReverseHexValue(n);
    TopBit(n);
  }

  /** With bit 31 clear, the low 32 bits of the written result are the byte swap. */
  lemma AsWrittenTruncatedAgrees(n: word)
    requires n < 0x8000_0000
    ensures ReverseHexAsWritten(n) % 0x1_0000_0000 == ReverseHex(n)
  {
    ShiftedTopByte(ByteOf(n, 3));
    ReverseHexValue(n);
    TopBit(n);
  }

  /**
   * With bit 31 set, the sign extension corrupts the result: 0x80000000
   * should swap to 0x80, and swapping back the low 32 bits of what the
   * written code returns does not restore the word.
   */
  lemma AsWrittenSignExtends()
    ensures ReverseHex(0x8000_0000) == 0x80
    ensures ReverseHexAsWritten(0x8000_0000) == 0xffff_ffff_ffff_ff80
    ensures ReverseHexAsWritten(ReverseHexAsWritten(0x8000_0000) % 0x1_0000_0000) % 0x1_0000_0000 != 0x8000_0000
  {
    assert LeBytes(0x8000_0000) == [0, 0, 0, 0x80];
    ShiftedTopByte(0x80);
    assert ReverseHexAsWritten(0x8000_0000) == SizeMod - 0x80;
    assert (SizeMod - 0x80) % 0x1_0000_0000 == 0xffff_ff80;
    assert LeBytes(0xffff_ff80) == [0x80, 0xff, 0xff, 0xff];
    ShiftedTopByte(0xff);
    assert ReverseHexAsWritten(0xffff_ff80) == SizeMod - 1;
  }

  // ---------------------------------------------------------------------------
  // Hub address formatting
  // ---------------------------------------------------------------------------

  predicate IsHexChar(c: char)
  {
    '0' <= c <= '9' || 'a' <= c <= 'f'
  }

  function HexDigit(d: nat): (c: char)
    requires d < 16
    ensures IsHexChar(c)
  {
    if d < 10 then ('0' as int + d) as char else ('a' as int + d - 10) as char
  }

  function HexValue(c: char): (d: nat)
    requires IsHexChar(c)
    ensures d < 16
  {
    if c <= '9' then c as int - '0' as int else c as int - 'a' as int + 10
  }

  lemma HexValueDigit(d: nat)
    requires d < 16
    ensures HexValue(HexDigit(d)) == d
  {
  }

  /** What `stream << hex << n` writes: lowercase digits, no leading zeros, "0" for zero. */
  function ToHex(n: nat): (s: string)
    ensures 1 <= |s| <= n + 1
    ensures forall k :: 0 <= k < |s| ==> IsHexChar(s[k])
    decreases n
  {
    if n < 16 then [HexDigit(n)] else ToHex(n / 16) + [HexDigit(n % 16)]
  }

  /** The value of a string of hex digits, most significant first. */
  function ParseHex(s: string): nat
    requires forall k :: 0 <= k < |s| ==> IsHexChar(s[k])
    decreases |s|
  {
    if s == [] then 0 else 16 * ParseHex(s[..|s| - 1]) + HexValue(s[|s| - 1])
  }

  lemma {:induction false} ParseToHex(n: nat)
    ensures ParseHex(ToHex(n)) == n
    decreases n
  {
    var s := ToHex(n);
    if n < 16 {
      assert s[..0] == [];
      HexValueDigit(n);
    } else {
      ParseToHex(n / 16);
      assert s[..|s| - 1] == ToHex(n / 16);
      HexValueDigit(n % 16);
    }
  }

  /** The hex text of n has at most four digits exactly when n is below 0x10000. */
  lemma {:induction false} ToHexShort(n: nat)
    ensures |ToHex(n)| <= 4 <==> n < 0x10000
    decreases n
  {
    if n >= 16 {
      ToHexShort(n / 16);
      assert |ToHex(n)| == |ToHex(n / 16)| + 1;
      assert n / 16 < 0x1000 <==> n < 0x10000;
      if n / 16 >= 16 {
        ToHexShort(n / 16 / 16);
        assert |ToHex(n / 16)| == |ToHex(n / 16 / 16)| + 1;
        assert |ToHex(n / 16)| <= 3 <==> n / 16 < 0x1000 by {
          LengthBelow(n / 16);
        }
      } else {
        assert |ToHex(n / 16)| == 1;
      }
    }
  }

  /** The hex text of n has at most three digits exactly when n is below 0x1000. */
  lemma {:induction false} LengthBelow(n: nat)
    ensures |ToHex(n)| <= 3 <==> n < 0x1000
    decreases n
  {
    if n >= 16 {
      LengthBelow2(n / 16);
    }
  }

  lemma {:induction false} LengthBelow2(n: nat)
    ensures |ToHex(n)| <= 2 <==> n < 0x100
    decreases n
  {
    if n >= 16 {
      assert |ToHex(n / 16)| <= 1 <==> n / 16 < 16;
    }
  }

  function Zeros(k: nat): (z: string)
    ensures |z| == k && forall i :: 0 <= i < k ==> z[i] == '0'
  {
    seq(k, _ => '0')
  }

  lemma {:induction false} ParseHexZeros(k: nat)
    ensures ParseHex(Zeros(k)) == 0
  {
    if k > 0 {
      assert Zeros(k)[..k - 1] == Zeros(k - 1);
      ParseHexZeros(k - 1);
    }
  }

  /** Leading zeros do not change the value of a hex string. */
  lemma {:induction false} ParseHexLeadingZeros(k: nat, s: string)
    requires forall i :: 0 <= i < |s| ==> IsHexChar(s[i])
    ensures var z := Zeros(k) + s;
            (forall i :: 0 <= i < |z| ==> IsHexChar(z[i])) && ParseHex(z) == ParseHex(s)
    decreases |s|
  {
    var z := Zeros(k) + s;
    if s == [] {
      assert z == Zeros(k);
      ParseHexZeros(k);
    } else {
      assert z[..|z| - 1] == Zeros(k) + s[..|s| - 1];
      ParseHexLeadingZeros(k, s[..|s| - 1]);
    }
  }

  /** The outcome of `getHubAddress`: the padded text, or the `out_of_range` that `string::replace` throws. */
  datatype HubAddress = Formatted(text: string) | OutOfRange

  /**
   * "0000" with its last |h| characters replaced by the hex text h of n. When
   * h is longer than four characters `4 - |h|` wraps in `size_t`, the position
   * lies past the end of the string and `replace` throws.
   */
  function PadHex(n: nat): HubAddress
    requires n < 0x1_0000_0000
  {
    var h := ToHex(n);
    var pos := Wrap(4 - |h|);
    if pos > 4 then OutOfRange else Formatted("0000"[..pos] + h + "0000"[pos + |h|..])
  }

  /** `getHubAddress`: the (possibly byte-swapped) hub address as four hex digits. */
  function GetHubAddress(sub: SubHdr, doReverseHex: bool): HubAddress
  {
    var v := if doReverseHex then ReverseHex(sub.hubAddress) else sub.hubAddress;
    PadHex(v)
  }

  /** The padding succeeds exactly below 0x10000, with four hex digits that parse back to n. */
  lemma PadHexRoundTrip(n: nat)
    requires n < 0x1_0000_0000
    ensures var r := PadHex(n);
            (r.Formatted? <==> n < 0x10000)
            && (r.Formatted? ==> |r.text| == 4
                                 && (forall k :: 0 <= k < 4 ==> IsHexChar(r.text[k]))
                                 && ParseHex(r.text) == n)
  {
    var h := ToHex(n);
    ToHexShort(n);
    if |h| <= 4 {
      var pos := 4 - |h|;
      assert "0000"[..pos] == Zeros(pos);
      assert "0000"[pos + |h|..] == [];
      assert PadHex(n).text == Zeros(pos) + h;
      ParseHexLeadingZeros(pos, h);
      ParseToHex(n);
    }
  }

  /** The address formats exactly when it is below 0x10000; the text is four lowercase hex digits that parse back to it. */
  lemma HubAddressRoundTrip(sub: SubHdr, doReverseHex: bool)
    ensures var v := if doReverseHex then ReverseHex(sub.hubAddress) else sub.hubAddress;
            var r := GetHubAddress(sub, doReverseHex);
            (r.Formatted? <==> v < 0x10000)
            && (r.Formatted? ==> |r.text| == 4
                                 && (forall k :: 0 <= k < 4 ==> IsHexChar(r.text[k]))
                                 && ParseHex(r.text) == v)
  {
    var v := if doReverseHex then ReverseHex(sub.hubAddress) else sub.hubAddress;
    PadHexRoundTrip(v);
  }
}

/**
 * The helpers of the Rust side (`src/utils.rs`): a lowercase hex encoder that
 * looks each byte's two digits up in a constant table, the decoder that
 * parses the digits back pair by pair, and a wrapper that orders a payload by
 * a priority alone.
 *
 * A Rust `&str` is modelled by its UTF-8 bytes, so that `s.len()` and the
 * slice `&s[i..i + 2]` mean what they mean in Rust; the encoder's `String` is
 * ASCII, and `AsciiBytes` gives its bytes.
 */
module RustUtils {
  import opened Wrappers

  type Byte = b: int | 0 <= b < 256

  // ------------------------------------------------------------ the table

  /** The lowercase hex digit of a nibble. */
  function HexDigit(d: nat): char
    requires d < 16
  {
    if d < 10 then ('0' as int + d) as char else ('a' as int + d - 10) as char
  }

  predicate IsLowerHexDigit(c: char) {
    '0' <= c <= '9' || 'a' <= c <= 'f'
  }

  /** `HEX_BYTES`, row by row: row `h` holds the two-digit forms of the 16
      bytes whose high digit is `h`. */
  const HEX_ROW_0: string := "00010203" + "04050607" + "08090a0b" + "0c0d0e0f"
  const HEX_ROW_1: string := "10111213" + "14151617" + "18191a1b" + "1c1d1e1f"
  const HEX_ROW_2: string := "20212223" + "24252627" + "28292a2b" + "2c2d2e2f"
  const HEX_ROW_3: string := "30313233" + "34353637" + "38393a3b" + "3c3d3e3f"
  const HEX_ROW_4: string := "40414243" + "44454647" + "48494a4b" + "4c4d4e4f"
  const HEX_ROW_5: string := "50515253" + "54555657" + "58595a5b" + "5c5d5e5f"
  const HEX_ROW_6: string := "60616263" + "64656667" + "68696a6b" + "6c6d6e6f"
  const HEX_ROW_7: string := "70717273" + "74757677" + "78797a7b" + "7c7d7e7f"
  const HEX_ROW_8: string := "80818283" + "84858687" + "88898a8b" + "8c8d8e8f"
  const HEX_ROW_9: string := "90919293" + "94959697" + "98999a9b" + "9c9d9e9f"
  const HEX_ROW_A: string := "a0a1a2a3" + "a4a5a6a7" + "a8a9aaab" + "acadaeaf"
  const HEX_ROW_B: string := "b0b1b2b3" + "b4b5b6b7" + "b8b9babb" + "bcbdbebf"
  const HEX_ROW_C: string := "c0c1c2c3" + "c4c5c6c7" + "c8c9cacb" + "cccdcecf"
  const HEX_ROW_D: string := "d0d1d2d3" + "d4d5d6d7" + "d8d9dadb" + "dcdddedf"
  const HEX_ROW_E: string := "e0e1e2e3" + "e4e5e6e7" + "e8e9eaeb" + "ecedeeef"
  const HEX_ROW_F: string := "f0f1f2f3" + "f4f5f6f7" + "f8f9fafb" + "fcfdfeff"

  /** Row `h` of the table. */
  function Row(h: nat): string
    requires h < 16
  {
    if h == 0 then HEX_ROW_0
    else if h == 1 then HEX_ROW_1
    else if h == 2 then HEX_ROW_2
    else if h == 3 then HEX_ROW_3
    else if h == 4 then HEX_ROW_4
    else if h == 5 then HEX_ROW_5
    else if h == 6 then HEX_ROW_6
    else if h == 7 then HEX_ROW_7
    else if h == 8 then HEX_ROW_8
    else if h == 9 then HEX_ROW_9
    else if h == 10 then HEX_ROW_A
    else if h == 11 then HEX_ROW_B
    else if h == 12 then HEX_ROW_C
    else if h == 13 then HEX_ROW_D
    else if h == 14 then HEX_ROW_E
    else HEX_ROW_F
  }

  /** The sixteen rows, in order. */
  function HexRows(): seq<string> {
    seq(16, h requires 0 <= h < 16 => Row(h))
  }

  /** The rows written one after another. */
  function Flatten(rows: seq<string>): string {
    if rows == [] then "" else rows[0] + Flatten(rows[1..])
  }

  /** The 512-character table of all 256 two-digit forms, in byte order. */
  const HEX_BYTES: string := Flatten(HexRows())

  /** The high and low digit that `t` holds for its byte `c`. */
  function HighAt(t: string, c: nat): char
    requires 2 * c + 1 < |t|
  {
    t[2 * c]
  }

  function LowAt(t: string, c: nat): char
    requires 2 * c + 1 < |t|
  {
    t[2 * c + 1]
  }

  /** `t` spells the `n` bytes `base`, ..., `base + n - 1` in order, two
      lowercase digits each, high digit first. */
  predicate Spells(t: string, base: nat, n: nat) {
    base + n <= 256 && |t| == 2 * n &&
    forall c :: 0 <= c < n ==>
      HighAt(t, c) == HexDigit((base + c) / 16) && LowAt(t, c) == HexDigit((base + c) % 16)
  }

  /** Spellings of two consecutive runs of bytes concatenate. */
  lemma SpellsAppend(t1: string, t2: string, base: nat, n1: nat, n2: nat)
    requires Spells(t1, base, n1) && Spells(t2, base + n1, n2)
    ensures Spells(t1 + t2, base, n1 + n2)
  {
    var t := t1 + t2;
    forall c | 0 <= c < n1 + n2
      ensures HighAt(t, c) == HexDigit((base + c) / 16) && LowAt(t, c) == HexDigit((base + c) % 16)
    {
      if c < n1 {
        assert HighAt(t, c) == HighAt(t1, c) && LowAt(t, c) == LowAt(t1, c);
      } else {
        var c2 := c - n1;
        assert HighAt(t, c) == HighAt(t2, c2) && LowAt(t, c) == LowAt(t2, c2);
        assert base + n1 + c2 == base + c;
      }
    }
  }

  /** Rows that each spell 16 consecutive bytes, the first starting at
      `base`, flatten into the spelling of all of them. */
  lemma {:induction false} FlattenSpells(rows: seq<string>, base: nat)
    requires base + 16 * |rows| <= 256
    requires forall i :: 0 <= i < |rows| ==> Spells(rows[i], base + 16 * i, 16)
    ensures Spells(Flatten(rows), base, 16 * |rows|)
  {
    if rows != [] {
      var tail := rows[1..];
      forall i | 0 <= i < |tail|
        ensures Spells(tail[i], base + 16 + 16 * i, 16)
      {
        assert tail[i] == rows[i + 1];
        assert base + 16 + 16 * i == base + 16 * (i + 1);
      }
      FlattenSpells(tail, base + 16);
      assert Spells(rows[0], base + 16 * 0, 16);
      SpellsAppend(rows[0], Flatten(tail), base, 16, 16 * |tail|);
    }
  }

  /** Each row `HEX_ROW_k` spells bytes 16k to 16k+15, checked digit by
      digit; the sixteen lemmas below differ only in that constant. */
  lemma Row0()
    ensures Spells(HEX_ROW_0, 0, 16)
  {
    forall l | 0 <= l < 16
      ensures HighAt(HEX_ROW_0, l) == HexDigit((0 + l) / 16) && LowAt(HEX_ROW_0, l) == HexDigit((0 + l) % 16)
    {
      if l == 0 {} else if l == 1 {} else if l == 2 {} else if l == 3 {} else if l == 4 {} else if l == 5 {} else if l == 6 {} else if l == 7 {} else if l == 8 {} else if l == 9 {} else if l == 10 {} else if l == 11 {} else if l == 12 {} else if l == 13 {} else if l == 14 {}
    }
  }

  lemma Row1()
    ensures Spells(HEX_ROW_1, 16, 16)
  {
    forall l | 0 <= l < 16
      ensures HighAt(HEX_ROW_1, l) == HexDigit((16 + l) / 16) && LowAt(HEX_ROW_1, l) == HexDigit((16 + l) % 16)
    {
      if l == 0 {} else if l == 1 {} else if l == 2 {} else if l == 3 {} else if l == 4 {} else if l == 5 {} else if l == 6 {} else if l == 7 {} else if l == 8 {} else if l == 9 {} else if l == 10 {} else if l == 11 {} else if l == 12 {} else if l == 13 {} else if l == 14 {}
    }
  }

  lemma Row2()
    ensures Spells(HEX_ROW_2, 32, 16)
  {
    forall l | 0 <= l < 16
      ensures HighAt(HEX_ROW_2, l) == HexDigit((32 + l) / 16) && LowAt(HEX_ROW_2, l) == HexDigit((32 + l) % 16)
    {
      if l == 0 {} else if l == 1 {} else if l == 2 {} else if l == 3 {} else if l == 4 {} else if l == 5 {} else if l == 6 {} else if l == 7 {} else if l == 8 {} else if l == 9 {} else if l == 10 {} else if l == 11 {} else if l == 12 {} else if l == 13 {} else if l == 14 {}
    }
  }

  lemma Row3()
    ensures Spells(HEX_ROW_3, 48, 16)
  {
    forall l | 0 <= l < 16
      ensures HighAt(HEX_ROW_3, l) == HexDigit((48 + l) / 16) && LowAt(HEX_ROW_3, l) == HexDigit((48 + l) % 16)
    {
      if l == 0 {} else if l == 1 {} else if l == 2 {} else if l == 3 {} else if l == 4 {} else if l == 5 {} else if l == 6 {} else if l == 7 {} else if l == 8 {} else if l == 9 {} else if l == 10 {} else if l == 11 {} else if l == 12 {} else if l == 13 {} else if l == 14 {}
    }
  }

  lemma Row4()
    ensures Spells(HEX_ROW_4, 64, 16)
  {
    forall l | 0 <= l < 16
      ensures HighAt(HEX_ROW_4, l) == HexDigit((64 + l) / 16) && LowAt(HEX_ROW_4, l) == HexDigit((64 + l) % 16)
    {
      if l == 0 {} else if l == 1 {} else if l == 2 {} else if l == 3 {} else if l == 4 {} else if l == 5 {} else if l == 6 {} else if l == 7 {} else if l == 8 {} else if l == 9 {} else if l == 10 {} else if l == 11 {} else if l == 12 {} else if l == 13 {} else if l == 14 {}
    }
  }

  lemma Row5()
    ensures Spells(HEX_ROW_5, 80, 16)
  {
    forall l | 0 <= l < 16
      ensures HighAt(HEX_ROW_5, l) == HexDigit((80 + l) / 16) && LowAt(HEX_ROW_5, l) == HexDigit((80 + l) % 16)
    {
      if l == 0 {} else if l == 1 {} else if l == 2 {} else if l == 3 {} else if l == 4 {} else if l == 5 {} else if l == 6 {} else if l == 7 {} else if l == 8 {} else if l == 9 {} else if l == 10 {} else if l == 11 {} else if l == 12 {} else if l == 13 {} else if l == 14 {}
    }
  }

  lemma Row6()
    ensures Spells(HEX_ROW_6, 96, 16)
  {
    forall l | 0 <= l < 16
      ensures HighAt(HEX_ROW_6, l) == HexDigit((96 + l) / 16) && LowAt(HEX_ROW_6, l) == HexDigit((96 + l) % 16)
    {
      if l == 0 {} else if l == 1 {} else if l == 2 {} else if l == 3 {} else if l == 4 {} else if l == 5 {} else if l == 6 {} else if l == 7 {} else if l == 8 {} else if l == 9 {} else if l == 10 {} else if l == 11 {} else if l == 12 {} else if l == 13 {} else if l == 14 {}
    }
  }

  lemma Row7()
    ensures Spells(HEX_ROW_7, 112, 16)
  {
    forall l | 0 <= l < 16
      ensures HighAt(HEX_ROW_7, l) == HexDigit((112 + l) / 16) && LowAt(HEX_ROW_7, l) == HexDigit((112 + l) % 16)
    {
      if l == 0 {} else if l == 1 {} else if l == 2 {} else if l == 3 {} else if l == 4 {} else if l == 5 {} else if l == 6 {} else if l == 7 {} else if l == 8 {} else if l == 9 {} else if l == 10 {} else if l == 11 {} else if l == 12 {} else if l == 13 {} else if l == 14 {}
    }
  }

  lemma Row8()
    ensures Spells(HEX_ROW_8, 128, 16)
  {
    forall l | 0 <= l < 16
      ensures HighAt(HEX_ROW_8, l) == HexDigit((128 + l) / 16) && LowAt(HEX_ROW_8, l) == HexDigit((128 + l) % 16)
    {
      if l == 0 {} else if l == 1 {} else if l == 2 {} else if l == 3 {} else if l == 4 {} else if l == 5 {} else if l == 6 {} else if l == 7 {} else if l == 8 {} else if l == 9 {} else if l == 10 {} else if l == 11 {} else if l == 12 {} else if l == 13 {} else if l == 14 {}
    }
  }

  lemma Row9()
    ensures Spells(HEX_ROW_9, 144, 16)
  {
    forall l | 0 <= l < 16
      ensures HighAt(HEX_ROW_9, l) == HexDigit((144 + l) / 16) && LowAt(HEX_ROW_9, l) == HexDigit((144 + l) % 16)
    {
      if l == 0 {} else if l == 1 {} else if l == 2 {} else if l == 3 {} else if l == 4 {} else if l == 5 {} else if l == 6 {} else if l == 7 {} else if l == 8 {} else if l == 9 {} else if l == 10 {} else if l == 11 {} else if l == 12 {} else if l == 13 {} else if l == 14 {}
    }
  }

  lemma RowA()
    ensures Spells(HEX_ROW_A, 160, 16)
  {
    forall l | 0 <= l < 16
      ensures HighAt(HEX_ROW_A, l) == HexDigit((160 + l) / 16) && LowAt(HEX_ROW_A, l) == HexDigit((160 + l) % 16)
    {
      if l == 0 {} else if l == 1 {} else if l == 2 {} else if l == 3 {} else if l == 4 {} else if l == 5 {} else if l == 6 {} else if l == 7 {} else if l == 8 {} else if l == 9 {} else if l == 10 {} else if l == 11 {} else if l == 12 {} else if l == 13 {} else if l == 14 {}
    }
  }

  lemma RowB()
    ensures Spells(HEX_ROW_B, 176, 16)
  {
    forall l | 0 <= l < 16
      ensures HighAt(HEX_ROW_B, l) == HexDigit((176 + l) / 16) && LowAt(HEX_ROW_B, l) == HexDigit((176 + l) % 16)
    {
      if l == 0 {} else if l == 1 {} else if l == 2 {} else if l == 3 {} else if l == 4 {} else if l == 5 {} else if l == 6 {} else if l == 7 {} else if l == 8 {} else if l == 9 {} else if l == 10 {} else if l == 11 {} else if l == 12 {} else if l == 13 {} else if l == 14 {}
    }
  }

  lemma RowC()
    ensures Spells(HEX_ROW_C, 192, 16)
  {
    forall l | 0 <= l < 16
      ensures HighAt(HEX_ROW_C, l) == HexDigit((192 + l) / 16) && LowAt(HEX_ROW_C, l) == HexDigit((192 + l) % 16)
    {
      if l == 0 {} else if l == 1 {} else if l == 2 {} else if l == 3 {} else if l == 4 {} else if l == 5 {} else if l == 6 {} else if l == 7 {} else if l == 8 {} else if l == 9 {} else if l == 10 {} else if l == 11 {} else if l == 12 {} else if l == 13 {} else if l == 14 {}
    }
  }

  lemma RowD()
    ensures Spells(HEX_ROW_D, 208, 16)
  {
    forall l | 0 <= l < 16
      ensures HighAt(HEX_ROW_D, l) == HexDigit((208 + l) / 16) && LowAt(HEX_ROW_D, l) == HexDigit((208 + l) % 16)
    {
      if l == 0 {} else if l == 1 {} else if l == 2 {} else if l == 3 {} else if l == 4 {} else if l == 5 {} else if l == 6 {} else if l == 7 {} else if l == 8 {} else if l == 9 {} else if l == 10 {} else if l == 11 {} else if l == 12 {} else if l == 13 {} else if l == 14 {}
    }
  }

  lemma RowE()
    ensures Spells(HEX_ROW_E, 224, 16)
  {
    forall l | 0 <= l < 16
      ensures HighAt(HEX_ROW_E, l) == HexDigit((224 + l) / 16) && LowAt(HEX_ROW_E, l) == HexDigit((224 + l) % 16)
    {
      if l == 0 {} else if l == 1 {} else if l == 2 {} else if l == 3 {} else if l == 4 {} else if l == 5 {} else if l == 6 {} else if l == 7 {} else if l == 8 {} else if l == 9 {} else if l == 10 {} else if l == 11 {} else if l == 12 {} else if l == 13 {} else if l == 14 {}
    }
  }

  lemma RowF()
    ensures Spells(HEX_ROW_F, 240, 16)
  {
    forall l | 0 <= l < 16
      ensures HighAt(HEX_ROW_F, l) == HexDigit((240 + l) / 16) && LowAt(HEX_ROW_F, l) == HexDigit((240 + l) % 16)
    {
      if l == 0 {} else if l == 1 {} else if l == 2 {} else if l == 3 {} else if l == 4 {} else if l == 5 {} else if l == 6 {} else if l == 7 {} else if l == 8 {} else if l == 9 {} else if l == 10 {} else if l == 11 {} else if l == 12 {} else if l == 13 {} else if l == 14 {}
    }
  }

  /** The table spells every byte, in byte order. */
  lemma HexTable()
    ensures Spells(HEX_BYTES, 0, 256)
  {
    Row0(); Row1(); Row2(); Row3(); Row4(); Row5(); Row6(); Row7();
    Row8(); Row9(); RowA(); RowB(); RowC(); RowD(); RowE(); RowF();
    var rows := HexRows();
    forall i | 0 <= i < 16
      ensures Spells(rows[i], 16 * i, 16)
    {
      assert rows[i] == Row(i);
    }
    FlattenSpells(rows, 0);
  }

  /** Characters `2b` and `2b + 1` of the table are the two lowercase hex
      digits of `b`, high nibble first. */
  lemma TableAt(b: nat)
    requires b < 256
    ensures |HEX_BYTES| == 512
    ensures HEX_BYTES[2 * b] == HexDigit(b / 16) && HEX_BYTES[2 * b + 1] == HexDigit(b % 16)
  {
    HexTable();
    assert HighAt(HEX_BYTES, b) == HexDigit((0 + b) / 16);
  }

  // ------------------------------------------------------------ encoding

  /** The slice `table[2b..2b + 2]` that `encode_hex` takes for byte `b`
      (its unchecked slice never leaves a table of 512 characters): the
      byte's high and low hex digits. */
  function HexPair(table: string, b: Byte): (r: string)
    requires Spells(table, 0, 256)
    ensures r == [HexDigit(b / 16), HexDigit(b % 16)]
  {
    var i := 2 * b as int;
    var pair := table[i .. i + 2];
    assert pair[0] == HighAt(table, b) && pair[1] == LowAt(table, b);
    pair
  }

  lemma HexDigitIsLowerHex(d: nat)
    requires d < 16
    ensures IsLowerHexDigit(HexDigit(d))
  {
  }

  /** Each byte replaced by its two characters of `table`, in order. */
  function EncodeHexWith(table: string, bytes: seq<Byte>): string
    requires Spells(table, 0, 256)
  {
    if bytes == [] then "" else HexPair(table, bytes[0]) + EncodeHexWith(table, bytes[1..])
  }

  /** `encode_hex`: each byte becomes its two characters of `HEX_BYTES`. */
  function EncodeHex(bytes: seq<Byte>): string {
    HexTable();
    EncodeHexWith(HEX_BYTES, bytes)
  }

  /** The encoding of a non-empty input: its first byte's digits, then the
      encoding of the rest. */
  lemma EncodeCons(table: string, bytes: seq<Byte>)
    requires Spells(table, 0, 256) && bytes != []
    ensures EncodeHexWith(table, bytes) ==
              [HexDigit(bytes[0] / 16), HexDigit(bytes[0] % 16)] + EncodeHexWith(table, bytes[1..])
  {
  }

  lemma {:induction false} EncodeWithSpec(table: string, bytes: seq<Byte>)
    requires Spells(table, 0, 256)
    ensures |EncodeHexWith(table, bytes)| == 2 * |bytes|
    ensures forall i :: 0 <= i < |bytes| ==>
              EncodeHexWith(table, bytes)[2 * i] == HexDigit(bytes[i] / 16) &&
              EncodeHexWith(table, bytes)[2 * i + 1] == HexDigit(bytes[i] % 16)
    ensures forall k :: 0 <= k < |EncodeHexWith(table, bytes)| ==> IsLowerHexDigit(EncodeHexWith(table, bytes)[k])
  {
    if bytes != [] {
      var rest := EncodeHexWith(table, bytes[1..]);
      EncodeWithSpec(table, bytes[1..]);
      var e := EncodeHexWith(table, bytes);
      EncodeCons(table, bytes);
      HexDigitIsLowerHex(bytes[0] / 16);
      HexDigitIsLowerHex(bytes[0] % 16);
      forall i | 1 <= i < |bytes|
        ensures e[2 * i] == HexDigit(bytes[i] / 16) && e[2 * i + 1] == HexDigit(bytes[i] % 16)
      {
        assert bytes[1..][i - 1] == bytes[i];
        assert e[2 * i] == rest[2 * (i - 1)];
        assert e[2 * i + 1] == rest[2 * (i - 1) + 1];
      }
      forall k | 0 <= k < |e|
        ensures IsLowerHexDigit(e[k])
      {
        if k >= 2 { assert e[k] == rest[k - 2]; }
      }
    }
  }

  /** The encoding is twice as long as the input, spells byte `i` as its
      high and low hex digits at `2i` and `2i + 1`, and holds nothing but
      lowercase hex digits. */
  lemma EncodeHexSpec(bytes: seq<Byte>)
    ensures |EncodeHex(bytes)| == 2 * |bytes|
    ensures forall i :: 0 <= i < |bytes| ==>
              EncodeHex(bytes)[2 * i] == HexDigit(bytes[i] / 16) &&
              EncodeHex(bytes)[2 * i + 1] == HexDigit(bytes[i] % 16)
    ensures forall k :: 0 <= k < |EncodeHex(bytes)| ==> IsLowerHexDigit(EncodeHex(bytes)[k])
  {
    HexTable();
    EncodeWithSpec(HEX_BYTES, bytes);
  }

  /** The UTF-8 bytes of an ASCII string. */
  function AsciiBytes(s: string): (r: seq<Byte>)
    requires forall k :: 0 <= k < |s| ==> s[k] as int < 128
    ensures |r| == |s|
    ensures forall k :: 0 <= k < |s| ==> r[k] == s[k] as int
  {
    seq(|s|, k requires 0 <= k < |s| => s[k] as int as Byte)
  }

  // ------------------------------------------------------------ u8::from_str_radix(_, 16)

  /** Why `from_str_radix` refused its input (Rust's `IntErrorKind`). */
  datatype IntErrorKind = Empty | InvalidDigit | PosOverflow

  const PLUS: Byte := '+' as int
  const MINUS: Byte := '-' as int

  /** `char::to_digit(16)` of a byte: both cases of `a`-`f` are digits. */
  function DigitValue(c: Byte): (r: Option<nat>)
    ensures r.Some? ==> r.value < 16
    ensures r.Some? <==> ('0' as int <= c <= '9' as int || 'a' as int <= c <= 'f' as int || 'A' as int <= c <= 'F' as int)
  {
    if '0' as int <= c <= '9' as int then Some(c - '0' as int)
    else if 'a' as int <= c <= 'f' as int then Some(c - 'a' as int + 10)
    else if 'A' as int <= c <= 'F' as int then Some(c - 'A' as int + 10)
    else None
  }

  /** The digits after the sign, read most significant first into `acc`;
      the first non-digit stops with InvalidDigit, a value past 255 with
      PosOverflow. */
  function Accumulate(digits: seq<Byte>, acc: Byte): Result<Byte, IntErrorKind> {
    if digits == [] then Ok(acc)
    else match DigitValue(digits[0])
      case None => Err(InvalidDigit)
      case Some(d) =>
        if acc * 16 + d > 255 then Err(PosOverflow)
        else Accumulate(digits[1..], acc * 16 + d)
  }

  /** `u8::from_str_radix(src, 16)`: an empty input is Empty; a lone sign is
      InvalidDigit; one leading `+` is skipped (a `-` is not, the type being
      unsigned). */
  function FromStrRadix16(src: seq<Byte>): Result<Byte, IntErrorKind> {
    if src == [] then Err(Empty)
    else if src == [PLUS] || src == [MINUS] then Err(InvalidDigit)
    else if src[0] == PLUS then Accumulate(src[1..], 0)
    else Accumulate(src, 0)
  }

  /** On a pair of bytes, as the decoder slices them: two digits give
      their value (either case), a `+` and one digit give that digit, and
      anything else is InvalidDigit; a pair never overflows nor is empty. */
  lemma PairValue(x: Byte, y: Byte)
    ensures DigitValue(x).Some? && DigitValue(y).Some? ==>
              FromStrRadix16([x, y]) == Ok(DigitValue(x).value * 16 + DigitValue(y).value)
    ensures x == PLUS && DigitValue(y).Some? ==> FromStrRadix16([x, y]) == Ok(DigitValue(y).value)
    ensures !(DigitValue(x).Some? && DigitValue(y).Some?) && !(x == PLUS && DigitValue(y).Some?) ==>
              FromStrRadix16([x, y]) == Err(InvalidDigit)
  {
    var s := [x, y];
    assert s[1..] == [y] && [y][1..] == [];
    if DigitValue(x).Some? && DigitValue(y).Some? {
      var hi := DigitValue(x).value;
      assert Accumulate([y], hi) == Ok(hi * 16 + DigitValue(y).value);
      assert FromStrRadix16(s) == Accumulate(s, 0);
    } else if x == PLUS && DigitValue(y).Some? {
      assert Accumulate([y], 0) == Ok(DigitValue(y).value);
    } else if x == PLUS {
      assert Accumulate([y], 0) == Err(InvalidDigit);
    } else if DigitValue(x).None? {
      assert FromStrRadix16(s) == Accumulate(s, 0);
    } else {
      assert Accumulate([y], DigitValue(x).value) == Err(InvalidDigit);
      assert FromStrRadix16(s) == Accumulate(s, 0);
    }
  }

  /** The two digits `HEX_BYTES` holds for `b` read back as `b`. */
  lemma HexDigitsParse(b: Byte)
    ensures FromStrRadix16([HexDigit(b / 16) as int as Byte, HexDigit(b % 16) as int as Byte]) == Ok(b)
  {
    var hi, lo := HexDigit(b / 16) as int as Byte, HexDigit(b % 16) as int as Byte;
    DigitOfHexDigit(b / 16);
    DigitOfHexDigit(b % 16);
    PairValue(hi, lo);
  }

  lemma DigitOfHexDigit(d: nat)
    requires d < 16
    ensures DigitValue(HexDigit(d) as int as Byte) == Some(d)
  {
  }

  // ------------------------------------------------------------ decoding

  datatype DecodeHexError = OddLength | ParseInt(kind: IntErrorKind)

  /** What `decode_hex` does: it returns a Result, or the slice `&s[i..i + 2]`
      panics because an end of the pair falls inside a multi-byte character. */
  datatype Decoded = Finished(result: Result<seq<Byte>, DecodeHexError>) | SlicePanic

  /** A byte that continues a UTF-8 character (`10xxxxxx`). */
  predicate IsContinuation(c: Byte) {
    0x80 <= c < 0xC0
  }

  /** The slice of the first two bytes of `rest` panics.  A `&str` never
      starts with a continuation byte, so a pair's start is a character
      boundary exactly when its first byte is not a continuation byte; its
      end is one when it is the end of the string or the next byte is not a
      continuation byte. */
  predicate SplitsChar(rest: seq<Byte>)
    requires |rest| >= 2
  {
    IsContinuation(rest[0]) || (|rest| > 2 && IsContinuation(rest[2]))
  }

  /** The pairs of an even-length input, in order, until the first one that
      panics or does not parse (`collect` into a Result stops there). */
  function DecodePairs(s: seq<Byte>): Decoded
    requires |s| % 2 == 0
  {
    if s == [] then Finished(Ok([]))
    else if SplitsChar(s) then SlicePanic
    else match FromStrRadix16(s[..2])
      case Err(kind) => Finished(Err(ParseInt(kind)))
      case Ok(v) =>
        match DecodePairs(s[2..])
        case Finished(Ok(rest)) => Finished(Ok([v] + rest))
        case failure => failure
  }

  /** `decode_hex`. */
  function DecodeHex(s: seq<Byte>): Decoded {
    if |s| % 2 != 0 then Finished(Err(OddLength)) else DecodePairs(s)
  }

  /** Pair `j` of `s` is sliced at character boundaries and parses. */
  predicate PairOk(s: seq<Byte>, j: nat)
    requires 2 * j + 2 <= |s|
  {
    !SplitsChar(s[2 * j..]) && FromStrRadix16(s[2 * j .. 2 * j + 2]).Ok?
  }

  /** What `decode_hex` gives when pair `j` is the first that fails. */
  function PairFailure(s: seq<Byte>, j: nat): Decoded
    requires 2 * j + 2 <= |s|
  {
    if SplitsChar(s[2 * j..]) then SlicePanic
    else match FromStrRadix16(s[2 * j .. 2 * j + 2])
      case Err(kind) => Finished(Err(ParseInt(kind)))
      case Ok(_) => Finished(Ok([]))
  }

  /** Pair `j + 1` of `s` is pair `j` of `s` without its first pair. */
  lemma PairShift(s: seq<Byte>, j: nat)
    requires |s| % 2 == 0 && 2 * j + 4 <= |s|
    ensures s[2 * (j + 1)..] == s[2..][2 * j..]
    ensures s[2 * (j + 1) .. 2 * (j + 1) + 2] == s[2..][2 * j .. 2 * j + 2]
    ensures PairOk(s, j + 1) == PairOk(s[2..], j)
    ensures PairFailure(s, j + 1) == PairFailure(s[2..], j)
  {
  }

  lemma {:induction false} DecodePairsOk(s: seq<Byte>)
    requires |s| % 2 == 0
    ensures DecodePairs(s) != Finished(Err(OddLength))
    ensures DecodePairs(s).Finished? && DecodePairs(s).result.Ok? <==>
              forall j :: 0 <= j < |s| / 2 ==> PairOk(s, j)
    ensures DecodePairs(s).Finished? && DecodePairs(s).result.Ok? ==>
              |DecodePairs(s).result.value| == |s| / 2 &&
              forall j :: 0 <= j < |s| / 2 ==>
                Ok(DecodePairs(s).result.value[j]) == FromStrRadix16(s[2 * j .. 2 * j + 2])
  {
    if s != [] {
      var tail := s[2..];
      DecodePairsOk(tail);
      assert s[0..] == s && s[0..2] == s[..2];
      if forall j :: 0 <= j < |s| / 2 ==> PairOk(s, j) {
        assert PairOk(s, 0);
        forall j | 0 <= j < |tail| / 2
          ensures PairOk(tail, j)
        {
          assert PairOk(s, j + 1);
          PairShift(s, j);
        }
        var v := FromStrRadix16(s[..2]).value;
        var vs := DecodePairs(tail).result.value;
        assert DecodePairs(s) == Finished(Ok([v] + vs));
        forall j | 1 <= j < |s| / 2
          ensures Ok(([v] + vs)[j]) == FromStrRadix16(s[2 * j .. 2 * j + 2])
        {
          PairShift(s, j - 1);
        }
      } else {
        var j :| 0 <= j < |s| / 2 && !PairOk(s, j);
        if j > 0 {
          PairShift(s, j - 1);
        }
      }
    }
  }

  lemma {:induction false} DecodePairsFirstFailure(s: seq<Byte>, k: nat)
    requires |s| % 2 == 0 && k < |s| / 2
    requires forall j :: 0 <= j < k ==> PairOk(s, j)
    requires !PairOk(s, k)
    ensures DecodePairs(s) == PairFailure(s, k)
  {
    assert s[0..] == s && s[0..2] == s[..2];
    if k > 0 {
      var tail := s[2..];
      assert PairOk(s, 0);
      forall j | 0 <= j < k - 1
        ensures PairOk(tail, j)
      {
        assert PairOk(s, j + 1);
        PairShift(s, j);
      }
      PairShift(s, k - 1);
      DecodePairsFirstFailure(tail, k - 1);
    }
  }

  /** `decode_hex` refuses exactly the odd-length inputs with OddLength; an
      even-length input decodes iff every pair is sliced at character
      boundaries and parses, giving |s|/2 bytes, byte `j` the value of pair
      `j`; otherwise the first failing pair decides the outcome. */
  lemma DecodeHexSpec(s: seq<Byte>)
    ensures DecodeHex(s) == Finished(Err(OddLength)) <==> |s| % 2 != 0
    ensures DecodeHex(s).Finished? && DecodeHex(s).result.Ok? <==>
              |s| % 2 == 0 && forall j :: 0 <= j < |s| / 2 ==> PairOk(s, j)
    ensures DecodeHex(s).Finished? && DecodeHex(s).result.Ok? ==>
              |DecodeHex(s).result.value| == |s| / 2 &&
              forall j :: 0 <= j < |s| / 2 ==>
                Ok(DecodeHex(s).result.value[j]) == FromStrRadix16(s[2 * j .. 2 * j + 2])
    ensures |s| % 2 == 0 ==>
              forall k :: 0 <= k < |s| / 2 && (forall j :: 0 <= j < k ==> PairOk(s, j)) && !PairOk(s, k) ==>
                DecodeHex(s) == PairFailure(s, k)
  {
    if |s| % 2 == 0 {
      DecodePairsOk(s);
      forall k | 0 <= k < |s| / 2 && (forall j :: 0 <= j < k ==> PairOk(s, j)) && !PairOk(s, k)
        ensures DecodeHex(s) == PairFailure(s, k)
      {
        DecodePairsFirstFailure(s, k);
      }
    }
  }

  /** Two digits of `b` in front of an even-length input that decodes,
      whose first byte is ASCII, put `b` in front of the result. */
  lemma DecodeDigitsCons(b: Byte, t: seq<Byte>, rest: seq<Byte>)
    requires |t| % 2 == 0 && (t != [] ==> t[0] < 128)
    requires DecodeHex(t) == Finished(Ok(rest))
    ensures DecodeHex([HexDigit(b / 16) as int as Byte, HexDigit(b % 16) as int as Byte] + t) ==
              Finished(Ok([b] + rest))
  {
    var pair := [HexDigit(b / 16) as int as Byte, HexDigit(b % 16) as int as Byte];
    var s := pair + t;
    assert s[..2] == pair && s[2..] == t;
    HexDigitsParse(b);
    assert !SplitsChar(s);
  }

  /** The bytes of two ASCII strings written one after the other. */
  lemma AsciiBytesAppend(x: string, y: string)
    requires forall k :: 0 <= k < |x| ==> x[k] as int < 128
    requires forall k :: 0 <= k < |y| ==> y[k] as int < 128
    ensures forall k :: 0 <= k < |x + y| ==> (x + y)[k] as int < 128
    ensures AsciiBytes(x + y) == AsciiBytes(x) + AsciiBytes(y)
  {
    assert forall k :: 0 <= k < |x + y| ==> (x + y)[k] == if k < |x| then x[k] else y[k - |x|];
  }

  /** The encoding is ASCII, two characters per byte. */
  lemma EncodeWithAscii(table: string, bytes: seq<Byte>)
    requires Spells(table, 0, 256)
    ensures |EncodeHexWith(table, bytes)| == 2 * |bytes|
    ensures forall k :: 0 <= k < |EncodeHexWith(table, bytes)| ==> EncodeHexWith(table, bytes)[k] as int < 128
  {
    EncodeWithSpec(table, bytes);
  }

  lemma {:induction false} RoundTripWith(table: string, bytes: seq<Byte>)
    requires Spells(table, 0, 256)
    ensures forall k :: 0 <= k < |EncodeHexWith(table, bytes)| ==> EncodeHexWith(table, bytes)[k] as int < 128
    ensures DecodeHex(AsciiBytes(EncodeHexWith(table, bytes))) == Finished(Ok(bytes))
  {
    EncodeWithAscii(table, bytes);
    if bytes != [] {
      var b := bytes[0];
      var pair := [HexDigit(b / 16), HexDigit(b % 16)];
      var tail := EncodeHexWith(table, bytes[1..]);
      RoundTripWith(table, bytes[1..]);
      EncodeWithAscii(table, bytes[1..]);
      EncodeCons(table, bytes);
      HexDigitIsLowerHex(b / 16);
      HexDigitIsLowerHex(b % 16);
      AsciiBytesAppend(pair, tail);
      assert AsciiBytes(pair) == [HexDigit(b / 16) as int as Byte, HexDigit(b % 16) as int as Byte];
      DecodeDigitsCons(b, AsciiBytes(tail), bytes[1..]);
      assert bytes == [b] + bytes[1..];
    }
  }

  /** Decoding what `encode_hex` wrote gives the bytes back. */
  lemma HexRoundTrip(bytes: seq<Byte>)
    ensures forall k :: 0 <= k < |EncodeHex(bytes)| ==> EncodeHex(bytes)[k] as int < 128
    ensures DecodeHex(AsciiBytes(EncodeHex(bytes))) == Finished(Ok(bytes))
  {
    HexTable();
    RoundTripWith(HEX_BYTES, bytes);
  }

  // ------------------------------------------------------------ HeapObject

  datatype Ordering = Less | Equal | Greater {
    function Reverse(): Ordering {
      match this
      case Less => Greater
      case Equal => Equal
      case Greater => Less
    }
  }

  /** A payload ordered by its priority alone, for use in a priority queue.
      The priority type is taken to be `int`. */
  datatype HeapObject<T> = HeapObject(priority: int, obj: T) {
    /** `HeapObject::new`. */
    static function New(priority: int, obj: T): (r: HeapObject<T>)
      ensures r.ToTuple() == (priority, obj)
    {
      HeapObject(priority, obj)
    }

    /** `to_tuple`: the priority and a copy of the payload. */
    function ToTuple(): (int, T) {
      (priority, obj)
    }

    /** `Ord::cmp`: the priorities' order; the payloads are not looked at. */
    function Cmp(other: HeapObject<T>): (r: Ordering)
      ensures r == Less <==> priority < other.priority
      ensures r == Greater <==> priority > other.priority
    {
      if priority < other.priority then Less
      else if priority > other.priority then Greater
      else Equal
    }

    /** `PartialOrd::partial_cmp`: always defined, and equal to `cmp`. */
    function PartialCmp(other: HeapObject<T>): (r: Option<Ordering>)
      ensures r == Some(Cmp(other))
    {
      Some(Cmp(other))
    }

    /** `PartialEq::eq`: equal priorities. */
    predicate Eq(other: HeapObject<T>) {
      priority == other.priority
    }
  }

  /** `cmp` and `eq` agree, `cmp` is antisymmetric, and objects with equal
      priorities are equal and compare Equal whatever their payloads. */
  lemma HeapOrderConsistent<T>(a: HeapObject<T>, b: HeapObject<T>, x: T, y: T)
    ensures a.Cmp(b) == Equal <==> a.Eq(b)
    ensures b.Cmp(a) == a.Cmp(b).Reverse()
    ensures a.Eq(b) <==> HeapObject(a.priority, x).Eq(HeapObject(b.priority, y))
    ensures a.Cmp(b) == HeapObject(a.priority, x).Cmp(HeapObject(b.priority, y))
  {
  }

  /** The order is transitive, as `Ord` requires. */
  lemma HeapOrderTransitive<T>(a: HeapObject<T>, b: HeapObject<T>, c: HeapObject<T>)
    requires a.Cmp(b) == Less && b.Cmp(c) == Less
    ensures a.Cmp(c) == Less
  {
  }
}

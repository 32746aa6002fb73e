/**
 * Rust strings are UTF-8: `str::len` counts bytes and `str::as_bytes` gives
 * the encoding. `Encode` is that encoding of a Dafny string (a sequence of
 * Unicode scalar values).
 */
module Utf8 {
  import opened Uint

  /** The UTF-8 encoding of one scalar value: 1 to 4 bytes. */
  function EncodeChar(c: char): (b: seq<Byte>)
    ensures 1 <= |b| <= 4
    ensures c as int < 0x80 ==> b == [c as int]
    ensures c as int >= 0x80 ==> forall i :: 0 <= i < |b| ==> b[i] >= 0x80
  {
    var n := c as int;
    if n < 0x80 then [n]
    else if n < 0x800 then [0xC0 + n / 0x40, 0x80 + n % 0x40]
    else if n < 0x1_0000 then [0xE0 + n / 0x1000, 0x80 + (n / 0x40) % 0x40, 0x80 + n % 0x40]
    else [0xF0 + n / 0x4_0000, 0x80 + (n / 0x1000) % 0x40, 0x80 + (n / 0x40) % 0x40, 0x80 + n % 0x40]
  }

  /** `str::as_bytes`. */
  function Encode(s: string): seq<Byte> {
    if s == [] then [] else EncodeChar(s[0]) + Encode(s[1..])
  }

  predicate Ascii(s: string) {
    forall i :: 0 <= i < |s| ==> s[i] as int < 0x80
  }

  /** An ASCII string is encoded byte for character. */
  lemma {:induction false} AsciiEncode(s: string)
    requires Ascii(s)
    ensures |Encode(s)| == |s|
    ensures forall i :: 0 <= i < |s| ==> Encode(s)[i] == s[i] as int
  {
    if s != [] {
      assert Ascii(s[1..]) by {
        forall i | 0 <= i < |s[1..]| ensures s[1..][i] as int < 0x80 {
          assert s[1..][i] == s[i + 1];
        }
      }
      AsciiEncode(s[1..]);
    }
  }

  /**
   * Every byte of an encoding is below 0x80 exactly when the string is
   * ASCII, and then there is one byte per character.
   */
  lemma {:induction false} EncodeBelow80(s: string)
    ensures (forall i :: 0 <= i < |Encode(s)| ==> Encode(s)[i] < 0x80) <==> Ascii(s)
  {
    if s == [] {
    } else {
      EncodeBelow80(s[1..]);
      var e := Encode(s);
      var h := EncodeChar(s[0]);
      assert e == h + Encode(s[1..]);
      if Ascii(s) {
        assert Ascii(s[1..]) by {
          forall i | 0 <= i < |s[1..]| ensures s[1..][i] as int < 0x80 {
            assert s[1..][i] == s[i + 1];
          }
        }
        forall i | 0 <= i < |e| ensures e[i] < 0x80 {
          if i >= |h| { assert e[i] == Encode(s[1..])[i - |h|]; }
        }
      } else if s[0] as int >= 0x80 {
        assert e[0] == h[0] && h[0] >= 0x80;
        assert Encode(s)[0] >= 0x80;
      } else {
        var j :| 0 <= j < |s| && s[j] as int >= 0x80;
        assert s[1..][j - 1] == s[j];
        var k :| 0 <= k < |Encode(s[1..])| && Encode(s[1..])[k] >= 0x80;
        assert e[|h| + k] == Encode(s[1..])[k];
      }
    }
  }
}

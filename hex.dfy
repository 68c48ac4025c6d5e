/**
 * Base16 as in section 8 of RFC 4648, with the behaviour of Go's
 * encoding/hex: EncodeToString writes lower-case digits, DecodeString
 * accepts both cases, reads the input pair by pair from the left, reports the
 * first character that is not a hex digit, and reports an odd length only
 * when every character is a hex digit.
 */
module Hex {
  import opened Bytes
  import opened ErrorUtil

  predicate IsHexChar(c: char)
  {
    ('0' <= c <= '9') || ('a' <= c <= 'f') || ('A' <= c <= 'F')
  }

  predicate IsLowerHexChar(c: char)
  {
    ('0' <= c <= '9') || ('a' <= c <= 'f')
  }

  predicate IsLowerHex(s: string)
  {
    forall i :: 0 <= i < |s| ==> IsLowerHexChar(s[i])
  }

  predicate AllHex(s: string)
  {
    forall i :: 0 <= i < |s| ==> IsHexChar(s[i])
  }

  function FromHexChar(c: char): (v: nat)
    requires IsHexChar(c)
    ensures v < 16
  {
    if '0' <= c <= '9' then c as int - '0' as int
    else if 'a' <= c <= 'f' then c as int - 'a' as int + 10
    else c as int - 'A' as int + 10
  }

  /** The lower-case digit of a value below 16: the alphabet "0123456789abcdef". */
  function HexDigit(v: nat): (c: char)
    requires v < 16
    ensures IsLowerHexChar(c) && FromHexChar(c) == v
  {
    if v < 10 then ('0' as int + v) as char else ('a' as int + v - 10) as char
  }

  lemma HexDigitOfLowerChar(c: char)
    requires IsLowerHexChar(c)
    ensures HexDigit(FromHexChar(c)) == c
  {
  }

  function EncodeByte(b: uint8): string
  {
    [HexDigit(b / 16), HexDigit(b % 16)]
  }

  /** hex.EncodeToString */
  function Encode(bs: seq<uint8>): (s: string)
    ensures |s| == 2 * |bs|
  {
    if bs == [] then [] else EncodeByte(bs[0]) + Encode(bs[1..])
  }

  /** hex.DecodeString */
  function Decode(s: string): (r: Result<seq<uint8>>)
    ensures r.Ok? ==> 2 * |r.value| == |s|
    ensures r.Fail? ==> r.err == HexOddLength || (r.err.InvalidHexByte? && r.err.c in s && !IsHexChar(r.err.c))
  {
    if |s| == 0 then Ok([])
    else if |s| == 1 then Fail(if IsHexChar(s[0]) then HexOddLength else InvalidHexByte(s[0]))
    else if !IsHexChar(s[0]) then Fail(InvalidHexByte(s[0]))
    else if !IsHexChar(s[1]) then Fail(InvalidHexByte(s[1]))
    else
      match Decode(s[2..])
      case Ok(rest) => Ok([FromHexChar(s[0]) * 16 + FromHexChar(s[1])] + rest)
      case Fail(e) => Fail(e)
  }

  /** The encoding uses lower-case hex digits only. */
  lemma {:induction false} EncodeIsLowerHex(bs: seq<uint8>)
    ensures IsLowerHex(Encode(bs))
  {
    if bs != [] {
      EncodeIsLowerHex(bs[1..]);
      var s := Encode(bs);
      assert s == EncodeByte(bs[0]) + Encode(bs[1..]);
      forall i | 0 <= i < |s| ensures IsLowerHexChar(s[i]) {
        if i >= 2 { assert s[i] == Encode(bs[1..])[i - 2]; }
      }
    }
  }

  /** Decoding undoes encoding: the round trip of RFC 4648 section 8. */
  lemma {:induction false} DecodeEncode(bs: seq<uint8>)
    ensures Decode(Encode(bs)) == Ok(bs)
  {
    if bs != [] {
      var s := Encode(bs);
      assert s[2..] == Encode(bs[1..]);
      DecodeEncode(bs[1..]);
      assert [bs[0]] + bs[1..] == bs;
    }
  }

  /** Encoding undoes a successful decoding of lower-case input. */
  lemma {:induction false} EncodeDecode(s: string)
    requires Decode(s).Ok? && IsLowerHex(s)
    ensures Encode(Decode(s).value) == s
  {
    if |s| >= 2 {
      var tail := s[2..];
      assert IsLowerHex(tail) by {
        forall i | 0 <= i < |tail| ensures IsLowerHexChar(tail[i]) {
          assert tail[i] == s[i + 2];
        }
      }
      assert Decode(tail).Ok?;
      EncodeDecode(tail);
      var rest := Decode(tail).value;
      var hi, lo := FromHexChar(s[0]), FromHexChar(s[1]);
      var b: uint8 := hi * 16 + lo;
      assert Decode(s).value == [b] + rest;
      assert b / 16 == hi && b % 16 == lo;
      HexDigitOfLowerChar(s[0]);
      HexDigitOfLowerChar(s[1]);
      assert EncodeByte(b) == s[..2];
      assert ([b] + rest)[1..] == rest;
      assert Encode([b] + rest) == EncodeByte(b) + Encode(rest);
      assert s == s[..2] + tail;
    }
  }

  /** Decoding succeeds exactly on even-length strings of hex digits, halving the length. */
  lemma {:induction false} DecodeSucceedsIff(s: string)
    ensures Decode(s).Ok? <==> |s| % 2 == 0 && AllHex(s)
    ensures Decode(s).Ok? ==> |Decode(s).value| == |s| / 2
  {
    if |s| >= 2 {
      DecodeSucceedsIff(s[2..]);
      if IsHexChar(s[0]) && IsHexChar(s[1]) {
        assert AllHex(s) <==> AllHex(s[2..]) by {
          if AllHex(s[2..]) {
            forall i | 0 <= i < |s| ensures IsHexChar(s[i]) {
              if i >= 2 { assert s[i] == s[2..][i - 2]; }
            }
          }
        }
      } else {
        assert !AllHex(s) by {
          if !IsHexChar(s[0]) { assert !IsHexChar(s[0]); } else { assert !IsHexChar(s[1]); }
        }
      }
    } else if |s| == 1 {
      assert !(|s| % 2 == 0);
    }
  }

  /** The error names the first character that is not a hex digit. */
  lemma {:induction false} DecodeReportsFirstInvalid(s: string, i: nat)
    requires i < |s| && !IsHexChar(s[i])
    requires forall j :: 0 <= j < i ==> IsHexChar(s[j])
    ensures Decode(s) == Fail(InvalidHexByte(s[i]))
  {
    if i >= 2 {
      forall j | 0 <= j < i - 2 ensures IsHexChar(s[2..][j]) {
        assert s[2..][j] == s[j + 2];
      }
      DecodeReportsFirstInvalid(s[2..], i - 2);
    }
  }

  /** An odd number of hex digits is a length error. */
  lemma {:induction false} DecodeOddLength(s: string)
    requires AllHex(s) && |s| % 2 == 1
    ensures Decode(s) == Fail(HexOddLength)
  {
    if |s| >= 2 {
      forall j | 0 <= j < |s| - 2 ensures IsHexChar(s[2..][j]) {
        assert s[2..][j] == s[j + 2];
      }
      DecodeOddLength(s[2..]);
    }
  }
}

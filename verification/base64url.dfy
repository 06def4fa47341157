/** Base64 with the URL- and filename-safe alphabet and no padding, as in
    section 5 of RFC 4648, with the leniencies of Go's
    `base64.RawURLEncoding.DecodeString`: carriage returns and line feeds are
    skipped wherever they occur, and the unused low bits of a final partial
    group are not required to be zero. */
module Base64Url {
  import opened Wrappers

  type byte = x: int | 0 <= x < 256
  type sextet = x: int | 0 <= x < 64

  /** The value of an alphabet character, or None for any other character
      (including the padding character '='). */
  function CharValue(c: char): (v: Option<sextet>)
  {
    if 'A' <= c <= 'Z' then Some(c as int - 'A' as int)
    else if 'a' <= c <= 'z' then Some(c as int - 'a' as int + 26)
    else if '0' <= c <= '9' then Some(c as int - '0' as int + 52)
    else if c == '-' then Some(62)
    else if c == '_' then Some(63)
    else None
  }

  /** The alphabet character for a 6-bit value. */
  function ValueChar(v: sextet): (c: char)
    ensures CharValue(c) == Some(v)
    ensures c != '\r' && c != '\n'
  {
    if v < 26 then ('A' as int + v) as char
    else if v < 52 then ('a' as int + v - 26) as char
    else if v < 62 then ('0' as int + v - 52) as char
    else if v == 62 then '-'
    else '_'
  }

  /** Drop the line breaks the decoder ignores. */
  function StripNewlines(s: string): (r: string)
    ensures '\r' !in r && '\n' !in r
    ensures ('\r' !in s && '\n' !in s) ==> r == s
  {
    if |s| == 0 then ""
    else if s[0] == '\r' || s[0] == '\n' then StripNewlines(s[1..])
    else
      assert s == [s[0]] + s[1..];
      [s[0]] + StripNewlines(s[1..])
  }

  /** Decode groups of four characters into three bytes; a final group of two
      or three characters yields one or two bytes; a final single character
      or any character outside the alphabet is an error. */
  function DecodeGroups(s: string): Option<seq<byte>>
    decreases |s|
  {
    if |s| == 0 then Some([])
    else if |s| == 1 then None
    else
      var a := CharValue(s[0]);
      var b := CharValue(s[1]);
      if a.None? || b.None? then None
      else if |s| == 2 then
        Some([Byte0(a.value, b.value)])
      else
        var c := CharValue(s[2]);
        if c.None? then None
        else if |s| == 3 then
          Some([Byte0(a.value, b.value), Byte1(b.value, c.value)])
        else
          var d := CharValue(s[3]);
          if d.None? then None
          else
            match DecodeGroups(s[4..])
            case None => None
            case Some(rest) =>
              Some([Byte0(a.value, b.value), Byte1(b.value, c.value),
                    Byte2(c.value, d.value)] + rest)
  }

  /** The three bytes a group of four sextets carries. */
  function Byte0(a: sextet, b: sextet): byte { a * 4 + b / 16 }
  function Byte1(b: sextet, c: sextet): byte { (b % 16) * 16 + c / 4 }
  function Byte2(c: sextet, d: sextet): byte { (c % 4) * 64 + d }

  /** The four sextets that carry three bytes. */
  function Sextet0(x: byte): sextet { x / 4 }
  function Sextet1(x: byte, y: byte): sextet { (x % 4) * 16 + y / 16 }
  function Sextet2(y: byte, z: byte): sextet { (y % 16) * 4 + z / 64 }
  function Sextet3(z: byte): sextet { z % 64 }

  /** Every character is in the alphabet. */
  predicate AllInAlphabet(s: string) {
    forall i :: 0 <= i < |s| ==> CharValue(s[i]).Some?
  }

  /** `base64.RawURLEncoding.DecodeString`: the text without line breaks is
      accepted exactly when it is all alphabet and does not leave a single
      character over, and then every four characters give three bytes. */
  function Decode(s: string): (r: Option<seq<byte>>)
    ensures r.Some? <==> AllInAlphabet(StripNewlines(s)) && |StripNewlines(s)| % 4 != 1
    ensures r.Some? ==> |r.value| == |StripNewlines(s)| * 3 / 4
  {
    DecodeGroupsDefined(StripNewlines(s));
    DecodeGroups(StripNewlines(s))
  }

  /** When the groups decode, and to how many bytes. */
  lemma {:induction false} DecodeGroupsDefined(s: string)
    ensures DecodeGroups(s).Some? <==> AllInAlphabet(s) && |s| % 4 != 1
    ensures DecodeGroups(s).Some? ==> |DecodeGroups(s).value| == |s| * 3 / 4
    decreases |s|
  {
    if |s| >= 4 {
      DecodeGroupsDefined(s[4..]);
      GroupStep(s);
      AlphabetSplit(s);
    } else {
      ShortGroups(s);
    }
  }

  /** A full group decodes when its four characters are in the alphabet and
      the rest decodes, and adds three bytes. */
  lemma GroupStep(s: string)
    requires |s| >= 4
    ensures DecodeGroups(s).Some? <==> AllInAlphabet(s[..4]) && DecodeGroups(s[4..]).Some?
    ensures DecodeGroups(s).Some? ==> |DecodeGroups(s).value| == 3 + |DecodeGroups(s[4..]).value|
  {
    assert AllInAlphabet(s[..4]) <==>
      CharValue(s[0]).Some? && CharValue(s[1]).Some? && CharValue(s[2]).Some? && CharValue(s[3]).Some?
    by {
      assert forall i :: 0 <= i < 4 ==> s[..4][i] == s[i];
    }
  }

  lemma AlphabetSplit(s: string)
    requires |s| >= 4
    ensures AllInAlphabet(s) <==> AllInAlphabet(s[..4]) && AllInAlphabet(s[4..])
  {
    assert forall i :: 0 <= i < 4 ==> s[..4][i] == s[i];
    assert forall i :: 4 <= i < |s| ==> s[4..][i - 4] == s[i];
  }

  /** Fewer than four characters: none, or a final group of two or three. */
  lemma ShortGroups(s: string)
    requires |s| < 4
    ensures DecodeGroups(s).Some? <==> AllInAlphabet(s) && |s| != 1
    ensures DecodeGroups(s).Some? ==> |DecodeGroups(s).value| == |s| * 3 / 4
  {
  }

  /** `base64.RawURLEncoding.EncodeToString`: the partner of Decode. */
  function Encode(b: seq<byte>): (s: string)
    ensures '\r' !in s && '\n' !in s
    ensures forall i :: 0 <= i < |s| ==> CharValue(s[i]).Some?
  {
    if |b| == 0 then ""
    else if |b| == 1 then
      [ValueChar(Sextet0(b[0])), ValueChar(Sextet1(b[0], 0))]
    else if |b| == 2 then
      [ValueChar(Sextet0(b[0])), ValueChar(Sextet1(b[0], b[1])),
       ValueChar(Sextet2(b[1], 0))]
    else
      [ValueChar(Sextet0(b[0])), ValueChar(Sextet1(b[0], b[1])),
       ValueChar(Sextet2(b[1], b[2])), ValueChar(Sextet3(b[2]))]
      + Encode(b[3..])
  }

  /** Encoded text holds only alphabet characters, so never a '.'. */
  lemma EncodeAlphabet(b: seq<byte>)
    ensures '.' !in Encode(b)
  {
  }

  /** Splitting three bytes into four sextets and joining them back is the
      identity. */
  lemma RegroupBytes(x: byte, y: byte, z: byte)
    ensures Byte0(Sextet0(x), Sextet1(x, y)) == x
    ensures Byte1(Sextet1(x, y), Sextet2(y, z)) == y
    ensures Byte2(Sextet2(y, z), Sextet3(z)) == z
  {
    assert ((x % 4) * 16 + y / 16) / 16 == x % 4;
    assert ((x % 4) * 16 + y / 16) % 16 == y / 16;
    assert ((y % 16) * 4 + z / 64) / 4 == y % 16;
    assert ((y % 16) * 4 + z / 64) % 4 == z / 64;
  }

  /** Every byte string survives encoding followed by decoding. */
  lemma DecodeEncode(b: seq<byte>)
    ensures Decode(Encode(b)) == Some(b)
  {
    DecodeGroupsEncode(b);
  }

  lemma {:induction false} DecodeGroupsEncode(b: seq<byte>)
    ensures DecodeGroups(Encode(b)) == Some(b)
    decreases |b|
  {
    if |b| >= 3 {
      DecodeGroupsEncode(b[3..]);
      DecodeFullGroup(b);
    } else if |b| == 2 {
      DecodeTwoBytes(b[0], b[1]);
      assert b == [b[0], b[1]];
    } else if |b| == 1 {
      DecodeOneByte(b[0]);
      assert b == [b[0]];
    }
  }

  lemma DecodeOneByte(x: byte)
    ensures DecodeGroups(Encode([x])) == Some([x])
  {
    var s := Encode([x]);
    assert s == [ValueChar(Sextet0(x)), ValueChar(Sextet1(x, 0))];
    DecodePair(s);
    RegroupBytes(x, 0, 0);
  }

  /** Two characters decode to the single byte they carry. */
  lemma DecodePair(s: string)
    requires |s| == 2 && CharValue(s[0]).Some? && CharValue(s[1]).Some?
    ensures DecodeGroups(s) == Some([Byte0(CharValue(s[0]).value, CharValue(s[1]).value)])
  {
  }

  lemma DecodeTwoBytes(x: byte, y: byte)
    ensures DecodeGroups(Encode([x, y])) == Some([x, y])
  {
    var s := Encode([x, y]);
    assert s == [ValueChar(Sextet0(x)), ValueChar(Sextet1(x, y)), ValueChar(Sextet2(y, 0))];
    assert CharValue(s[0]) == Some(Sextet0(x));
    assert CharValue(s[1]) == Some(Sextet1(x, y));
    assert CharValue(s[2]) == Some(Sextet2(y, 0));
    RegroupBytes(x, y, 0);
  }

  /** One step of the round trip: the first four characters give back the
      first three bytes. */
  lemma DecodeFullGroup(b: seq<byte>)
    requires |b| >= 3
    requires DecodeGroups(Encode(b[3..])) == Some(b[3..])
    ensures DecodeGroups(Encode(b)) == Some(b)
  {
    var s := Encode(b);
    var v0, v1, v2, v3 := Sextet0(b[0]), Sextet1(b[0], b[1]),
                          Sextet2(b[1], b[2]), Sextet3(b[2]);
    assert s == [ValueChar(v0), ValueChar(v1), ValueChar(v2), ValueChar(v3)] + Encode(b[3..]);
    assert CharValue(s[0]) == Some(v0);
    assert CharValue(s[1]) == Some(v1);
    assert CharValue(s[2]) == Some(v2);
    assert CharValue(s[3]) == Some(v3);
    assert s[4..] == Encode(b[3..]);
    RegroupBytes(b[0], b[1], b[2]);
    assert b == [b[0], b[1], b[2]] + b[3..];
  }

  /** A payload whose length leaves one character over is rejected. */
  lemma DecodeRejectsLoneChar(s: string)
    requires |StripNewlines(s)| % 4 == 1
    ensures Decode(s) == None
  {
    var t := StripNewlines(s);
    GroupsRejectLoneChar(t, |t| / 4);
  }

  lemma {:induction false} GroupsRejectLoneChar(s: string, k: nat)
    requires |s| == 4 * k + 1
    ensures DecodeGroups(s) == None
    decreases k
  {
    if k > 0 {
      GroupsRejectLoneChar(s[4..], k - 1);
    }
  }
}

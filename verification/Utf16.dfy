/** UTF-16 (section 2 of RFC 2781), in whose code units Telegram counts the
    offsets and lengths of entities
    (internal/mtproto/pyformat/pyformat.go, Build). */
module Utf16 {
  import opened Options

  type Unit = u: int | 0 <= u < 0x10000

  /** One unit below U+10000, otherwise a high and a low surrogate. */
  function EncodeRune(c: char): seq<Unit> {
    var v := c as int;
    if v < 0x10000 then [v]
    else [0xD800 + (v - 0x10000) / 0x400, 0xDC00 + (v - 0x10000) % 0x400]
  }

  function Encode(s: string): seq<Unit> {
    if s == "" then [] else Encode(s[..|s| - 1]) + EncodeRune(s[|s| - 1])
  }

  /** Reads from the left; a surrogate without its partner is an error. */
  function Decode(us: seq<Unit>): Option<string> {
    if us == [] then Some("")
    else if us[0] < 0xD800 || us[0] >= 0xE000 then Before(us[0] as char, Decode(us[1..]))
    else if us[0] < 0xDC00 && |us| > 1 && 0xDC00 <= us[1] < 0xE000 then
      Before((0x10000 + (us[0] as int - 0xD800) * 0x400 + (us[1] as int - 0xDC00)) as char, Decode(us[2..]))
    else None
  }

  function Before(c: char, rest: Option<string>): Option<string> {
    match rest
    case None => None
    case Some(s) => Some([c] + s)
  }

  /** The ranges of the encoding: a rune is its own unit, or a pair of surrogates
      that carries ten bits of it each. */
  lemma RuneUnits(c: char)
    ensures c as int < 0x10000 ==> EncodeRune(c) == [c as int]
    ensures c as int >= 0x10000 ==>
              var us := EncodeRune(c);
              && |us| == 2 && 0xD800 <= us[0] <= 0xDBFF && 0xDC00 <= us[1] <= 0xDFFF
              && c as int == 0x10000 + (us[0] as int - 0xD800) * 0x400 + (us[1] as int - 0xDC00)
  {}

  lemma {:induction false} EncodeAppend(a: string, b: string)
    ensures Encode(a + b) == Encode(a) + Encode(b)
  {
    hide EncodeRune;
    if b == [] {
      assert a + b == a;
    } else {
      EncodeAppend(a, b[..|b| - 1]);
      assert (a + b)[..|a + b| - 1] == a + b[..|b| - 1];
    }
  }

  lemma {:induction false} DecodeRune(c: char, us: seq<Unit>)
    ensures Decode(EncodeRune(c) + us) == Before(c, Decode(us))
  {
    RuneUnits(c);
    var all := EncodeRune(c) + us;
    if c as int < 0x10000 { assert all[1..] == us; } else { assert all[2..] == us; }
  }

  /** A text that is encoded is decoded as itself. */
  lemma {:induction false} RoundTrip(s: string)
    ensures Decode(Encode(s)) == Some(s)
  {
    if s == "" {
    } else {
      var c, rest := s[0], s[1..];
      assert s == [c] + rest;
      EncodeAppend([c], rest);
      assert [c][..0] == [] && Encode([c]) == EncodeRune(c);
      DecodeRune(c, Encode(rest));
      RoundTrip(rest);
    }
  }

  /** The encoding is as long as the text, and longer by one unit for each rune
      above U+FFFF. */
  lemma {:induction false} EncodedLength(s: string)
    ensures |Encode(s)| == |s| + |set i | 0 <= i < |s| && s[i] as int > 0xFFFF|
  {
    if s == "" {
    } else {
      var front, n := s[..|s| - 1], |s| - 1;
      EncodedLength(front);
      RuneUnits(s[n]);
      hide EncodeRune;
      var before := set i | 0 <= i < |front| && front[i] as int > 0xFFFF;
      var all := set i | 0 <= i < |s| && s[i] as int > 0xFFFF;
      assert all == if s[n] as int > 0xFFFF then before + {n} else before;
    }
  }
}

/** Percent encoding (section 2.1 of RFC 3986) as Go's net/url and Python's urllib.parse apply it,
    and strings.ReplaceAll. A byte is written as the character with that code. */
module Encoding {
  import opened Prelude

  type Byte = c: char | c as int < 256

  predicate IsBytes(s: string) {
    forall i :: 0 <= i < |s| ==> s[i] as int < 256
  }

  /** url.PathEscape, the userinfo part of url.URL.String, url.QueryEscape, and Python's quote with
      safe="". */
  datatype Mode = PathSegment | UserPassword | Query | Python

  predicate Unreserved(c: char) {
    'a' <= c <= 'z' || 'A' <= c <= 'Z' || '0' <= c <= '9' || c == '-' || c == '_' || c == '.' || c == '~'
  }

  /** Bytes a mode leaves as they are. */
  predicate Safe(mode: Mode, c: char) {
    Unreserved(c) ||
    match mode
    case PathSegment => c == '$' || c == '&' || c == '+' || c == '=' || c == ':' || c == '@'
    case UserPassword => c == '$' || c == '&' || c == '+' || c == ',' || c == ';' || c == '='
    case Query => false
    case Python => false
  }

  function HexDigit(n: nat): char
    requires n < 16
  {
    if n < 10 then ('0' as int + n) as char else ('A' as int + n - 10) as char
  }

  function HexValue(c: char): Option<nat> {
    if '0' <= c <= '9' then Some(c as int - '0' as int)
    else if 'A' <= c <= 'F' then Some(c as int - 'A' as int + 10)
    else if 'a' <= c <= 'f' then Some(c as int - 'a' as int + 10)
    else None
  }

  function EscapeByte(mode: Mode, c: Byte): seq<Byte> {
    if Safe(mode, c) then [c]
    else if mode.Query? && c == ' ' then "+"
    else ['%', HexDigit(c as int / 16), HexDigit(c as int % 16)]
  }

  function Escape(mode: Mode, s: seq<Byte>): seq<Byte> {
    if s == [] then [] else EscapeByte(mode, s[0]) + Escape(mode, s[1..])
  }

  /** url.PathUnescape, and the decoding of a path or of userinfo: a plus sign stands for itself. */
  function Unescape(s: string): Option<seq<Byte>> {
    if s == "" then Some([])
    else if s[0] != '%' then
      if s[0] as int >= 256 then None
      else match Unescape(s[1..])
        case None => None
        case Some(rest) => Some([s[0]] + rest)
    else if |s| < 3 || HexValue(s[1]).None? || HexValue(s[2]).None? then None
    else match Unescape(s[3..])
      case None => None
      case Some(rest) => Some([(16 * HexValue(s[1]).value + HexValue(s[2]).value) as char] + rest)
  }

  /** What decoding makes of an encoded byte. */
  function Decoded(mode: Mode, c: Byte): Byte {
    if mode.Query? && c == ' ' then '+' else c
  }

  function DecodedAll(mode: Mode, s: seq<Byte>): (r: seq<Byte>)
    ensures |r| == |s| && forall i :: 0 <= i < |s| ==> r[i] == Decoded(mode, s[i])
  {
    if s == [] then [] else [Decoded(mode, s[0])] + DecodedAll(mode, s[1..])
  }

  lemma HexRoundTrip(n: nat)
    requires n < 16
    ensures HexValue(HexDigit(n)) == Some(n)
  {
  }

  lemma UnescapeByte(mode: Mode, c: Byte, rest: string)
    requires Unescape(rest).Some?
    ensures Unescape(EscapeByte(mode, c) + rest) == Some([Decoded(mode, c)] + Unescape(rest).value)
  {
    var s := EscapeByte(mode, c) + rest;
    if |EscapeByte(mode, c)| == 1 {
      assert s[1..] == rest;
    } else {
      HexRoundTrip(c as int / 16);
      HexRoundTrip(c as int % 16);
      assert s[3..] == rest;
    }
  }

  /** Decoding undoes every encoder, except that a space encoded for a query comes back as a plus. */
  lemma {:induction false} UnescapeEscape(mode: Mode, s: seq<Byte>)
    ensures Unescape(Escape(mode, s)) == Some(DecodedAll(mode, s))
  {
    if s != [] {
      UnescapeEscape(mode, s[1..]);
      UnescapeByte(mode, s[0], Escape(mode, s[1..]));
    }
  }

  lemma DecodedIsSame(mode: Mode, s: seq<Byte>)
    ensures DecodedAll(mode, s) == s <==> !(mode.Query? && ' ' in s)
  {
    if mode.Query? && ' ' in s {
      var i :| 0 <= i < |s| && s[i] == ' ';
      assert DecodedAll(mode, s)[i] == '+';
    }
  }

  /** Characters that can stand in encoded text. */
  predicate Encoded(mode: Mode, c: char) {
    Safe(mode, c) || c == '%' || (mode.Query? && c == '+')
  }

  lemma {:induction false} EscapeAlphabet(mode: Mode, s: seq<Byte>)
    ensures forall c :: c in Escape(mode, s) ==> Encoded(mode, c)
  {
    if s != [] {
      EscapeAlphabet(mode, s[1..]);
      assert forall c :: c in EscapeByte(mode, s[0]) ==> Encoded(mode, c);
    }
  }

  lemma EscapeEmpty(mode: Mode, s: seq<Byte>)
    ensures Escape(mode, s) == [] <==> s == []
  {
  }

  /** Unreserved bytes need no encoding. */
  lemma {:induction false} EscapeUnreserved(mode: Mode, s: seq<Byte>)
    requires forall c :: c in s ==> Unreserved(c)
    ensures Escape(mode, s) == s
  {
    if s != [] {
      EscapeUnreserved(mode, s[1..]);
      assert s[0] in s && s == [s[0]] + s[1..];
    }
  }

  // ---- Replacing text -------------------------------------------------------------------

  /** strings.ReplaceAll for a non-empty pattern */
  function ReplaceAll(s: string, old_: string, new_: string): string
    requires old_ != ""
    decreases |s|
  {
    if s == "" then ""
    else if old_ <= s then new_ + ReplaceAll(s[|old_|..], old_, new_)
    else [s[0]] + ReplaceAll(s[1..], old_, new_)
  }

  predicate Contains(s: string, part: string)
    decreases |s|
  {
    part <= s || (s != "" && Contains(s[1..], part))
  }

  lemma PrefixStopsAt(a: string, c: char, b: string, part: string)
    requires c !in part
    ensures part <= a + [c] + b <==> part <= a
  {
    var s := a + [c] + b;
    assert s[|a|] == c;
    assert s[..|a|] == a;
  }

  lemma ConcatAround(p: string, x: string, c: char, y: string)
    ensures p + (x + [c] + y) == (p + x) + [c] + y
  {
  }

  /** A character the pattern does not have keeps the two sides apart. */
  lemma {:induction false} ReplaceAroundSeparator(a: string, c: char, b: string, old_: string, new_: string)
    requires old_ != "" && c !in old_
    ensures ReplaceAll(a + [c] + b, old_, new_) == ReplaceAll(a, old_, new_) + [c] + ReplaceAll(b, old_, new_)
    decreases |a|
  {
    var s := a + [c] + b;
    PrefixStopsAt(a, c, b, old_);
    if a == "" {
      assert s[0] == c && s[1..] == b;
    } else {
      var k, put := if old_ <= a then |old_| else 1, if old_ <= a then new_ else [a[0]];
      assert s[k..] == a[k..] + [c] + b && s[0] == a[0];
      ReplaceAroundSeparator(a[k..], c, b, old_, new_);
      ConcatAround(put, ReplaceAll(a[k..], old_, new_), c, ReplaceAll(b, old_, new_));
    }
  }

  lemma {:induction false} ReplaceNothing(s: string, old_: string, new_: string)
    requires old_ != "" && !Contains(s, old_)
    ensures ReplaceAll(s, old_, new_) == s
  {
    if s != "" {
      ReplaceNothing(s[1..], old_, new_);
      assert s == [s[0]] + s[1..];
    }
  }

  lemma {:induction false} ReplaceShrinks(s: string, old_: string, new_: string)
    requires old_ != "" && |new_| < |old_|
    ensures |ReplaceAll(s, old_, new_)| <= |s|
    ensures Contains(s, old_) ==> |ReplaceAll(s, old_, new_)| < |s|
    decreases |s|
  {
    if s != "" {
      ReplaceShrinks(if old_ <= s then s[|old_|..] else s[1..], old_, new_);
    }
  }

  /** Replacing by something shorter leaves a text alone exactly when the pattern is not in it. */
  lemma ReplaceIsIdentityIff(s: string, old_: string, new_: string)
    requires old_ != "" && |new_| < |old_|
    ensures ReplaceAll(s, old_, new_) == s <==> !Contains(s, old_)
  {
    ReplaceShrinks(s, old_, new_);
    if !Contains(s, old_) { ReplaceNothing(s, old_, new_); }
  }

  /** Lower-case letters and dots: never part of an escape sequence. */
  predicate PlainText(s: string) {
    forall i :: 0 <= i < |s| ==> 'a' <= s[i] <= 'z' || s[i] == '.'
  }

  lemma {:induction false} EscapePrefix(mode: Mode, p: string, s: seq<Byte>)
    requires PlainText(p)
    ensures p <= Escape(mode, s) <==> p <= s
  {
    if p != "" && s != [] {
      EscapePrefix(mode, p[1..], s[1..]);
      var e := Escape(mode, s);
      if Safe(mode, s[0]) {
        assert e[1..] == Escape(mode, s[1..]);
        assert p <= e <==> p[0] == e[0] && p[1..] <= e[1..];
        assert p <= s <==> p[0] == s[0] && p[1..] <= s[1..];
      } else {
        assert !('a' <= s[0] <= 'z') && s[0] != '.';
        assert e[0] == '%' || e[0] == '+';
      }
    }
  }

  lemma {:induction false} EscapeConcat(mode: Mode, a: seq<Byte>, b: seq<Byte>)
    ensures Escape(mode, a + b) == Escape(mode, a) + Escape(mode, b)
  {
    if a == [] {
      assert a + b == b;
    } else {
      EscapeConcat(mode, a[1..], b);
      assert (a + b)[1..] == a[1..] + b;
      ConcatAssociates(EscapeByte(mode, a[0]), Escape(mode, a[1..]), Escape(mode, b));
    }
  }

  lemma {:induction false} ReplaceKeepsBytes(s: string, old_: string, new_: string)
    requires old_ != "" && IsBytes(s) && IsBytes(new_)
    ensures IsBytes(ReplaceAll(s, old_, new_))
    decreases |s|
  {
    if s != "" { ReplaceKeepsBytes(if old_ <= s then s[|old_|..] else s[1..], old_, new_); }
  }

  function ReplaceBytes(s: seq<Byte>, old_: seq<Byte>, new_: seq<Byte>): seq<Byte>
    requires old_ != []
  {
    ReplaceKeepsBytes(s, old_, new_);
    ReplaceAll(s, old_, new_)
  }

  /** Escape sequences are stepped over. */
  lemma ReplaceSkipsByte(mode: Mode, c: Byte, rest: string, old_: string, new_: string)
    requires PlainText(old_) && old_ != "" && !(Safe(mode, c) && old_ <= EscapeByte(mode, c) + rest)
    ensures ReplaceAll(EscapeByte(mode, c) + rest, old_, new_) == EscapeByte(mode, c) + ReplaceAll(rest, old_, new_)
  {
    var e := EscapeByte(mode, c);
    var s := e + rest;
    if |e| == 1 {
      assert s[1..] == rest;
      assert !(old_ <= s);
    } else {
      var s1, s2 := [e[1], e[2]] + rest, [e[2]] + rest;
      assert s[1..] == s1 && s1[1..] == s2 && s2[1..] == rest;
      assert !(old_ <= s) && !(old_ <= s1) && !(old_ <= s2);
      assert ReplaceAll(s2, old_, new_) == [e[2]] + ReplaceAll(rest, old_, new_);
      assert ReplaceAll(s1, old_, new_) == [e[1]] + ReplaceAll(s2, old_, new_);
      assert ReplaceAll(s, old_, new_) == [e[0]] + ReplaceAll(s1, old_, new_);
    }
  }

  /** Replacing plain text before or after encoding is the same. */
  lemma {:induction false} ReplaceInEscaped(mode: Mode, s: seq<Byte>, old_: seq<Byte>, new_: seq<Byte>)
    requires PlainText(old_) && PlainText(new_) && old_ != []
    ensures ReplaceAll(Escape(mode, s), old_, new_) == Escape(mode, ReplaceBytes(s, old_, new_))
    decreases |s|
  {
    if s != [] {
      var e := Escape(mode, s);
      EscapePrefix(mode, old_, s);
      if old_ <= s {
        var tail := s[|old_|..];
        assert s == old_ + tail;
        EscapeConcat(mode, old_, tail);
        EscapePlain(mode, old_);
        assert e[|old_|..] == Escape(mode, tail);
        ReplaceInEscaped(mode, tail, old_, new_);
        EscapeConcat(mode, new_, ReplaceBytes(tail, old_, new_));
        EscapePlain(mode, new_);
      } else {
        ReplaceSkipsByte(mode, s[0], Escape(mode, s[1..]), old_, new_);
        ReplaceInEscaped(mode, s[1..], old_, new_);
        EscapeConcat(mode, [s[0]], ReplaceBytes(s[1..], old_, new_));
        assert Escape(mode, [s[0]]) == EscapeByte(mode, s[0]) + [];
      }
    }
  }

  lemma EscapePlain(mode: Mode, s: seq<Byte>)
    requires PlainText(s)
    ensures Escape(mode, s) == s
  {
    forall c | c in s ensures Unreserved(c) {}
    EscapeUnreserved(mode, s);
  }
}

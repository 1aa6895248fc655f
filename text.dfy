/**
 * String helpers that the Java code takes from the platform: ASCII lower-casing
 * (`String.toLowerCase`), decimal rendering (`String.valueOf(int)`), `String.join`,
 * `String.split` with a literal separator, the US-ASCII and UTF-8 encodings of a string and
 * `String.length()`, which counts UTF-16 code units.
 */
module Text {
  import opened Wrappers

  newtype byte = x: int | 0 <= x < 256

  predicate IsUpper(c: char) { 'A' <= c <= 'Z' }

  function LowerChar(c: char): char {
    if IsUpper(c) then (c as int + 32) as char else c
  }

  /** `s.toLowerCase()` restricted to ASCII letters. */
  function Lower(s: string): string {
    seq(|s|, i requires 0 <= i < |s| => LowerChar(s[i]))
  }

  /** No upper-case ASCII letter occurs in `s`. */
  predicate IsLowerCase(s: string) {
    forall i :: 0 <= i < |s| ==> !IsUpper(s[i])
  }

  lemma LowerIsLowerCase(s: string)
    ensures IsLowerCase(Lower(s))
    ensures IsLowerCase(s) ==> Lower(s) == s
  {
  }

  /** A string holding an upper-case letter is never the lower-cased form of anything. */
  lemma UpperIsNotLowered(s: string, t: string)
    requires !IsLowerCase(s)
    ensures Lower(t) != s
  {
    LowerIsLowerCase(t);
  }

  // ---------------------------------------------------------------- decimals

  predicate IsDigit(c: char) { '0' <= c <= '9' }

  function DigitChar(d: nat): char
    requires d < 10
  {
    ('0' as int + d) as char
  }

  function DigitValue(c: char): nat
    requires IsDigit(c)
  {
    c as int - '0' as int
  }

  /** `String.valueOf(n)` for a non-negative `n`. */
  function Decimal(n: nat): (r: string)
    ensures |r| > 0
    ensures forall i :: 0 <= i < |r| ==> IsDigit(r[i])
    ensures |r| > 1 ==> r[0] != '0'
  {
    if n < 10 then [DigitChar(n)] else Decimal(n / 10) + [DigitChar(n % 10)]
  }

  /** The value of a string of decimal digits (leading zeros allowed). */
  function ParseDecimal(s: string): nat
    requires forall i :: 0 <= i < |s| ==> IsDigit(s[i])
  {
    if s == [] then 0 else ParseDecimal(s[..|s| - 1]) * 10 + DigitValue(s[|s| - 1])
  }

  /** Rendering a number in decimal and reading it back gives the number. */
  lemma {:induction false} DecimalRoundTrip(n: nat)
    ensures ParseDecimal(Decimal(n)) == n
  {
    if n >= 10 {
      DecimalRoundTrip(n / 10);
      var s := Decimal(n);
      assert s[..|s| - 1] == Decimal(n / 10);
    }
  }

  // ---------------------------------------------------------------- join / split

  /** Concatenation regrouped; stated once so that proofs need not rediscover it. */
  lemma ConcatAssoc<T>(a: seq<T>, b: seq<T>, c: seq<T>)
    ensures (a + b) + c == a + (b + c)
  {
  }

  /** `String.join(sep, parts)`. */
  function Join(sep: string, parts: seq<string>): string {
    if parts == [] then []
    else if |parts| == 1 then parts[0]
    else parts[0] + sep + Join(sep, parts[1..])
  }

  /** `sep` occurs in `s` starting at position `k`. */
  predicate OccursAt(s: string, sep: string, k: nat) {
    k + |sep| <= |s| && s[k..k + |sep|] == sep
  }

  /** The first position at or after `from` where `sep` occurs in `s`. */
  function IndexFrom(s: string, sep: string, from: nat): (r: Option<nat>)
    requires |sep| > 0
    ensures r.Some? ==> from <= r.value && OccursAt(s, sep, r.value)
    ensures r.Some? ==> forall k: nat :: from <= k < r.value ==> !OccursAt(s, sep, k)
    ensures r.None? ==> forall k: nat :: from <= k ==> !OccursAt(s, sep, k)
    decreases |s| - from
  {
    if from + |sep| > |s| then None
    else if s[from..from + |sep|] == sep then Some(from)
    else IndexFrom(s, sep, from + 1)
  }

  function IndexOf(s: string, sep: string): (r: Option<nat>)
    requires |sep| > 0
    ensures r.Some? <==> exists k: nat :: OccursAt(s, sep, k)
  {
    IndexFrom(s, sep, 0)
  }

  /** Every piece between occurrences of `sep`, found left to right, without overlaps. */
  function SplitAll(s: string, sep: string): (r: seq<string>)
    requires |sep| > 0
    ensures |r| > 0
    decreases |s|
  {
    match IndexOf(s, sep)
    case None => [s]
    case Some(k) => [s[..k]] + SplitAll(s[k + |sep|..], sep)
  }

  function DropTrailingEmpty(parts: seq<string>): (r: seq<string>)
    ensures |r| <= |parts| && r == parts[..|r|]
    ensures r != [] ==> r[|r| - 1] != []
  {
    if parts == [] || parts[|parts| - 1] != [] then parts
    else DropTrailingEmpty(parts[..|parts| - 1])
  }

  /**
   * `s.split(sep)` where `sep` holds no regular-expression metacharacter: the input
   * itself when `sep` does not occur, otherwise the pieces with trailing empty pieces removed.
   */
  function JavaSplit(s: string, sep: string): seq<string>
    requires |sep| > 0
  {
    if IndexOf(s, sep).None? then [s] else DropTrailingEmpty(SplitAll(s, sep))
  }

  /** A string in which `sep` does not occur splits into itself. */
  lemma SplitWithoutSeparator(s: string, sep: string)
    requires |sep| > 0
    requires forall k: nat :: !OccursAt(s, sep, k)
    ensures JavaSplit(s, sep) == [s]
  {
  }

  /** A one-character separator occurs exactly where that character stands. */
  lemma OccursAtChar(s: string, c: char, k: nat)
    ensures OccursAt(s, [c], k) <==> k < |s| && s[k] == c
  {
    if k < |s| {
      assert s[k..k + 1] == [s[k]];
    }
  }

  /** Splitting a list joined with a character that none of its parts holds gives the list back. */
  lemma {:induction false} SplitJoin(c: char, parts: seq<string>)
    requires |parts| > 0
    requires forall i :: 0 <= i < |parts| ==> c !in parts[i]
    ensures SplitAll(Join([c], parts), [c]) == parts
  {
    var p := parts[0];
    if |parts| == 1 {
      forall k: nat ensures !OccursAt(p, [c], k) {
        OccursAtChar(p, c, k);
      }
      assert IndexOf(p, [c]) == None;
    } else {
      var rest := Join([c], parts[1..]);
      var s := Join([c], parts);
      assert s == p + [c] + rest;
      forall k: nat | k < |p| ensures !OccursAt(s, [c], k) {
        OccursAtChar(s, c, k);
        assert s[k] == p[k];
      }
      OccursAtChar(s, c, |p|);
      assert IndexFrom(s, [c], 0) == Some(|p|);
      assert s[..|p|] == p;
      assert s[|p| + 1..] == rest;
      SplitJoin(c, parts[1..]);
    }
  }

  // ---------------------------------------------------------------- encoding

  /** `s.getBytes(US_ASCII)`: characters outside ASCII become '?'. */
  function AsciiBytes(s: string): seq<byte> {
    seq(|s|, i requires 0 <= i < |s| => if s[i] as int < 128 then s[i] as int as byte else '?' as int as byte)
  }

  predicate IsAscii(s: string) {
    forall i :: 0 <= i < |s| ==> s[i] as int < 128
  }

  /** The UTF-8 encoding of one character: one byte for ASCII, up to four otherwise. */
  function Utf8Char(c: char): (r: seq<byte>)
    ensures 1 <= |r| <= 4
    ensures |r| == 1 <==> c as int < 128
    ensures c as int >= 0x10000 ==> |r| == 4
  {
    var n := c as int;
    if n < 0x80 then [n as byte]
    else if n < 0x800 then [(0xC0 + n / 64) as byte, (0x80 + n % 64) as byte]
    else if n < 0x10000 then
      [(0xE0 + n / 4096) as byte, (0x80 + n / 64 % 64) as byte, (0x80 + n % 64) as byte]
    else
      [(0xF0 + n / 262144 % 8) as byte, (0x80 + n / 4096 % 64) as byte,
       (0x80 + n / 64 % 64) as byte, (0x80 + n % 64) as byte]
  }

  /** `s.getBytes(UTF_8)`. */
  function Utf8(s: string): seq<byte> {
    if s == [] then [] else Utf8(s[..|s| - 1]) + Utf8Char(s[|s| - 1])
  }

  /** `s.length()`: characters outside the Basic Multilingual Plane count twice (a surrogate pair). */
  function Utf16Length(s: string): nat {
    if s == [] then 0 else Utf16Length(s[..|s| - 1]) + (if s[|s| - 1] as int >= 0x10000 then 2 else 1)
  }

  /**
   * A string's length never exceeds the length of its UTF-8 encoding, and the two agree
   * exactly when every character is ASCII.
   */
  lemma {:induction false} Utf8Length(s: string)
    ensures Utf16Length(s) <= |Utf8(s)|
    ensures Utf16Length(s) == |Utf8(s)| <==> IsAscii(s)
  {
    if s != [] {
      var init := s[..|s| - 1];
      var c := s[|s| - 1];
      Utf8Length(init);
      assert IsAscii(s) <==> IsAscii(init) && c as int < 128 by {
        if IsAscii(init) && c as int < 128 {
          forall i | 0 <= i < |s| ensures s[i] as int < 128 {
            if i < |init| { assert s[i] == init[i]; }
          }
        }
        if IsAscii(s) {
          forall i | 0 <= i < |init| ensures init[i] as int < 128 {
            assert init[i] == s[i];
          }
        }
      }
    }
  }

  /** For ASCII text, US-ASCII and UTF-8 give the same bytes. */
  lemma {:induction false} AsciiIsUtf8(s: string)
    requires IsAscii(s)
    ensures AsciiBytes(s) == Utf8(s)
  {
    if s != [] {
      var init := s[..|s| - 1];
      assert IsAscii(init) by {
        forall i | 0 <= i < |init| ensures init[i] as int < 128 {
          assert init[i] == s[i];
        }
      }
      AsciiIsUtf8(init);
      assert AsciiBytes(s) == AsciiBytes(init) + Utf8Char(s[|s| - 1]);
    }
  }
}

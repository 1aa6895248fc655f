/**
 * The part of `java.text.MessageFormat.format(pattern, args...)` the bootstrap relies
 * on, with every argument a `String`: a single quote toggles quoting, two single quotes
 * stand for one literal quote, an unquoted `{n}` is replaced by argument `n` (or by the
 * text `{n}` itself when there is no such argument), and any other brace group is an error.
 */
module MessageFormat {
  import opened Wrappers
  import opened Text

  /** Puts `p` in front of a successful result; an error stays an error. */
  function Prepend(p: string, r: Result<string>): (q: Result<string>)
    ensures q.Ok? <==> r.Ok?
    ensures q.Ok? ==> q.value == p + r.value
  {
    if r.Ok? then Ok(p + r.value) else r
  }

  /** The number of decimal digits at the front of `s`. */
  function DigitRun(s: string): (n: nat)
    ensures n <= |s|
    ensures forall i :: 0 <= i < n ==> IsDigit(s[i])
    ensures n < |s| ==> !IsDigit(s[n])
  {
    if s == [] || !IsDigit(s[0]) then 0 else 1 + DigitRun(s[1..])
  }

  /**
   * Formats the rest `t` of a pattern, `quoted` telling whether a quote is open.
   * A quote left open at the end is dropped, as `MessageFormat` does.
   */
  function Format(t: string, args: seq<string>, quoted: bool): Result<string>
    decreases |t|
  {
    if t == [] then Ok([])
    else if t[0] == '\'' then
      if |t| > 1 && t[1] == '\'' then Prepend("'", Format(t[2..], args, quoted))
      else Format(t[1..], args, !quoted)
    else if t[0] == '{' && !quoted then
      var d := DigitRun(t[1..]);
      if d == 0 || d + 1 == |t| || t[d + 1] != '}' then Failure("can't parse argument number")
      else
        var n := ParseDecimal(t[1..d + 1]);
        Prepend(if n < |args| then args[n] else "{" + Decimal(n) + "}", Format(t[d + 2..], args, quoted))
    else Prepend([t[0]], Format(t[1..], args, quoted))
  }

  /** Text without quotes or opening braces is copied as it stands. */
  lemma {:induction false} FormatPlain(p: string, t: string, args: seq<string>, quoted: bool)
    requires forall i :: 0 <= i < |p| ==> p[i] != '\'' && p[i] != '{'
    ensures Format(p + t, args, quoted) == Prepend(p, Format(t, args, quoted))
  {
    if p == [] {
      assert p + t == t;
      var r := Format(t, args, quoted);
      if r.Ok? {
        assert p + r.value == r.value;
      }
    } else {
      var s := p + t;
      assert s[0] == p[0] && s[1..] == p[1..] + t;
      FormatPlain(p[1..], t, args, quoted);
      assert Format(s, args, quoted) == Prepend([p[0]], Format(p[1..] + t, args, quoted));
      var r := Format(t, args, quoted);
      if r.Ok? {
        assert [p[0]] + (p[1..] + r.value) == p + r.value;
      }
    }
  }

  /** A one-digit argument reference `{c}` is replaced by that argument, or kept as text without one. */
  lemma FormatArgument(c: char, t: string, args: seq<string>)
    requires IsDigit(c)
    ensures Format("{" + [c] + "}" + t, args, false)
         == Prepend(if DigitValue(c) < |args| then args[DigitValue(c)] else "{" + [c] + "}", Format(t, args, false))
  {
    var s := "{" + [c] + "}" + t;
    assert s[1..] == [c] + "}" + t;
    assert DigitRun(s[1..][1..]) == 0;
    assert s[1..2] == [c];
    assert ParseDecimal([c]) == DigitValue(c) by {
      assert [c][..0] == [];
    }
    assert Decimal(DigitValue(c)) == [c];
    assert s[3..] == t;
  }

  /** Prepending twice is prepending the concatenation. */
  lemma PrependPrepend(a: string, b: string, r: Result<string>)
    ensures Prepend(a, Prepend(b, r)) == Prepend(a + b, r)
  {
    if r.Ok? {
      assert a + (b + r.value) == (a + b) + r.value;
    }
  }

  /** Plain text followed by a one-digit argument reference that has an argument. */
  lemma FormatSlot(pre: string, c: char, t: string, args: seq<string>)
    requires forall i :: 0 <= i < |pre| ==> pre[i] != '\'' && pre[i] != '{'
    requires IsDigit(c) && DigitValue(c) < |args|
    ensures Format(pre + "{" + [c] + "}" + t, args, false) == Prepend(pre + args[DigitValue(c)], Format(t, args, false))
  {
    var slot := "{" + [c] + "}" + t;
    assert pre + "{" + [c] + "}" + t == pre + slot;
    FormatPlain(pre, slot, args, false);
    FormatArgument(c, t, args);
    PrependPrepend(pre, args[DigitValue(c)], Format(t, args, false));
  }

  /** A character between single quotes stands for itself, braces included. */
  lemma FormatQuotedChar(c: char, t: string, args: seq<string>)
    requires c != '\''
    requires t == [] || t[0] != '\''
    ensures Format("'" + [c] + "'" + t, args, false) == Prepend([c], Format(t, args, false))
  {
    var s := "'" + [c] + "'" + t;
    assert s[1..] == [c] + "'" + t;
    assert s[1..][1..] == "'" + t;
    assert s[1..][1..][1..] == t;
    assert Format(s[1..][1..], args, true) == Format(t, args, false);
    assert Format(s[1..], args, true) == Prepend([c], Format(t, args, false));
  }

  /** An opening brace with no closing brace after it makes the pattern invalid. */
  lemma {:induction false} UnmatchedBraceFails(t: string, args: seq<string>)
    requires forall i :: 0 <= i < |t| ==> t[i] != '}'
    ensures Format("{" + t, args, false).Failure?
  {
    var s := "{" + t;
    assert s[1..] == t;
    var d := DigitRun(t);
    if d + 1 < |s| {
      assert s[d + 1] == t[d];
    }
  }
}

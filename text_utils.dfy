/** The string helpers of the Common/Utils.cs files: escaping text for
    Spectre.Console markup, trimming a path to a table cell, and a
    file's age as "3d", "2w" or "1y". Both variants of each are here:
    csharp13 writes them as expressions, csharp14 fills a buffer. */
module TextUtils {
  import opened FileSystem

  // Markup escaping.

  /** The markup that shows one character literally: a square bracket is
      doubled, any other character stands for itself. */
  function EscapeChar(c: char): string
  {
    if c == '[' then "[[" else if c == ']' then "]]" else [c]
  }

  /** The markup that displays `t` literally, character by character. */
  function Escaped(t: string): string
  {
    if t == [] then [] else EscapeChar(t[0]) + Escaped(t[1..])
  }

  /** How markup reads text: a doubled bracket shows one bracket, any other
      character shows itself. */
  function Unescape(m: string): string
    decreases |m|
  {
    if m == [] then []
    else if |m| >= 2 && (m[0] == '[' || m[0] == ']') && m[1] == m[0] then [m[0]] + Unescape(m[2..])
    else [m[0]] + Unescape(m[1..])
  }

  function BracketCount(t: string): nat
  {
    if t == [] then 0 else (if t[0] == '[' || t[0] == ']' then 1 else 0) + BracketCount(t[1..])
  }

  lemma EscapedCons(c: char, t: string)
    ensures Escaped([c] + t) == EscapeChar(c) + Escaped(t)
  {
    assert ([c] + t)[1..] == t;
  }

  lemma EscapedSnoc(t: string, c: char)
    ensures Escaped(t + [c]) == Escaped(t) + EscapeChar(c)
  {
    EscapedConcat(t, [c]);
    assert Escaped([c]) == EscapeChar(c) + Escaped([]);
  }

  lemma {:induction false} EscapedConcat(a: string, b: string)
    ensures Escaped(a + b) == Escaped(a) + Escaped(b)
    decreases |a|
  {
    if a != [] {
      assert (a + b)[1..] == a[1..] + b;
      EscapedConcat(a[1..], b);
    } else {
      assert a + b == b;
    }
  }

  /** The markup displays exactly the text it was made from. */
  lemma {:induction false} UnescapeEscaped(t: string)
    ensures Unescape(Escaped(t)) == t
    decreases |t|
  {
    if t != [] {
      UnescapeEscaped(t[1..]);
      var e := EscapeChar(t[0]);
      var rest := Escaped(t[1..]);
      assert Escaped(t) == e + rest;
      if t[0] == '[' || t[0] == ']' {
        assert (e + rest)[2..] == rest;
      } else {
        assert (e + rest)[1..] == rest;
      }
    }
  }

  /** Each bracket costs one extra character, so the markup is at most
      twice as long as the text. */
  lemma {:induction false} EscapedLength(t: string)
    ensures |Escaped(t)| == |t| + BracketCount(t)
    ensures BracketCount(t) <= |t|
    decreases |t|
  {
    if t != [] {
      EscapedLength(t[1..]);
    }
  }

  /** Escaping changes a text exactly when the text holds a bracket. */
  lemma {:induction false} EscapedUnchangedIff(t: string)
    ensures Escaped(t) == t <==> BracketCount(t) == 0
    decreases |t|
  {
    EscapedLength(t);
    if t != [] {
      EscapedUnchangedIff(t[1..]);
      if BracketCount(t) == 0 {
        assert Escaped(t) == [t[0]] + Escaped(t[1..]);
        assert t == [t[0]] + t[1..];
      }
    }
  }

  /** `buffer[pos++] = c`: the written part grows by `c`. */
  method Put(buffer: array<char>, pos: nat, c: char) returns (next: nat)
    requires pos < buffer.Length
    modifies buffer
    ensures next == pos + 1
    ensures buffer[..next] == old(buffer[..pos]) + [c]
  {
    buffer[pos] := c;
    next := pos + 1;
    assert buffer[..next] == buffer[..pos] + [c];
  }

  /** csharp14 EscapeMarkup: each character is written into a buffer twice
      the length of the text, a bracket twice, and only while it fits; the
      escaped text is the part of the buffer written. The fit checks never
      fail, so nothing is dropped. */
  method EscapeMarkup(text: string) returns (r: string)
    ensures r == Escaped(text)
  {
    if |text| == 0 {
      return text;
    }
    var buffer := new char[|text| * 2];
    var pos := 0;
    for i := 0 to |text|
      invariant pos <= 2 * i
      invariant buffer[..pos] == Escaped(text[..i])
    {
      var ch := text[i];
      ghost var written := buffer[..pos];
      EscapedSnoc(text[..i], ch);
      assert text[..i + 1] == text[..i] + [ch];
      if ch == '[' {
        if pos + 1 < buffer.Length {
          pos := Put(buffer, pos, '[');
          pos := Put(buffer, pos, '[');
        }
      } else if ch == ']' {
        if pos + 1 < buffer.Length {
          pos := Put(buffer, pos, ']');
          pos := Put(buffer, pos, ']');
        }
      } else {
        if pos < buffer.Length {
          pos := Put(buffer, pos, ch);
        }
      }
      assert buffer[..pos] == written + EscapeChar(ch);
    }
    assert text[..|text|] == text;
    r := buffer[..pos];
  }

  /** String.Replace with a one-character pattern: every occurrence of `c`
      becomes `repl`. */
  function ReplaceChar(s: string, c: char, repl: string): string
  {
    if s == [] then [] else (if s[0] == c then repl else [s[0]]) + ReplaceChar(s[1..], c, repl)
  }

  lemma {:induction false} ReplaceCharConcat(a: string, b: string, c: char, repl: string)
    ensures ReplaceChar(a + b, c, repl) == ReplaceChar(a, c, repl) + ReplaceChar(b, c, repl)
    decreases |a|
  {
    if a != [] {
      assert (a + b)[1..] == a[1..] + b;
      ReplaceCharConcat(a[1..], b, c, repl);
    } else {
      assert a + b == b;
    }
  }

  /** Doubling the opening brackets first and the closing ones second is
      the same as doubling both in one pass: the first replacement adds no
      closing bracket for the second one to double. */
  lemma {:induction false} ReplaceTwiceIsEscaped(t: string)
    ensures ReplaceChar(ReplaceChar(t, '[', "[["), ']', "]]") == Escaped(t)
    decreases |t|
  {
    if t != [] {
      ReplaceTwiceIsEscaped(t[1..]);
      var head := if t[0] == '[' then "[[" else [t[0]];
      assert ReplaceChar(t, '[', "[[") == head + ReplaceChar(t[1..], '[', "[[");
      ReplaceCharConcat(head, ReplaceChar(t[1..], '[', "[["), ']', "]]");
      if t[0] == '[' {
        assert ReplaceChar(head, ']', "]]") == "[[" by {
          assert head[1..] == "[";
          assert head[1..][1..] == [];
        }
      } else {
        assert ReplaceChar(head, ']', "]]") == EscapeChar(t[0]) by {
          assert head[1..] == [];
        }
      }
    }
  }

  /** csharp13 EscapeMarkup: text.Replace("[", "[[").Replace("]", "]]").
      It produces the same markup as the buffer version. */
  function EscapeMarkupByReplace(text: string): (r: string)
    ensures r == Escaped(text)
  {
    if text == [] then text
    else
      ReplaceTwiceIsEscaped(text);
      ReplaceChar(ReplaceChar(text, '[', "[["), ']', "]]")
  }

  // Trimming a path to the width of a table cell.

  const MaxPathLength: nat := 50
  const TrimmedPathLength: nat := 48
  const Ellipsis: char := '\U{2026}'

  /** csharp14 TrimPath: the last component of `path`, cut to 48 characters
      and an ellipsis when it is longer than 50. */
  function TrimPath(path: string): (r: string)
    ensures |r| <= MaxPathLength
    ensures |BaseName(path)| <= MaxPathLength ==> r == BaseName(path)
    ensures |BaseName(path)| > MaxPathLength ==>
              r == BaseName(path)[..TrimmedPathLength] + [Ellipsis]
  {
    var name := BaseName(path);
    if |name| > MaxPathLength then name[..TrimmedPathLength] + [Ellipsis] else name
  }

  /** A name is shown unchanged exactly when it fits; a trimmed one is
      visibly shorter. */
  lemma TrimPathKeepsIff(path: string)
    ensures TrimPath(path) == BaseName(path) <==> |BaseName(path)| <= MaxPathLength
    ensures |BaseName(path)| > MaxPathLength ==> |TrimPath(path)| < |BaseName(path)|
  {
  }

  /** Only the entry's own name is shown, whatever directory holds it. */
  lemma TrimPathOfChild(parent: string, name: string)
    requires forall i :: 0 <= i < |name| ==> name[i] != '/'
    ensures TrimPath(parent + "/" + name) == TrimPath(name)
    ensures |name| <= MaxPathLength ==> TrimPath(parent + "/" + name) == name
  {
    BaseNameOfChild(parent, name);
  }

  /** The three characters the UTF-8 bytes of an ellipsis become when read
      as Windows-1252: a-circumflex, euro sign, broken bar. */
  const MisreadEllipsis: string := "\U{E2}\U{20AC}\U{A6}"

  /** csharp13 TrimPath, as written: the ellipsis in its source is the
      misread "â€¦". */
  function TrimPathAsWritten(path: string): (r: string)
    ensures |BaseName(path)| <= MaxPathLength ==> r == BaseName(path)
    ensures |BaseName(path)| > MaxPathLength ==>
              |r| == MaxPathLength + 1 && r[..TrimmedPathLength] == BaseName(path)[..TrimmedPathLength]
  {
    var name := BaseName(path);
    if |name| > MaxPathLength then name[..TrimmedPathLength] + MisreadEllipsis else name
  }

  /** Every trimmed name comes out 51 characters long, over the limit it
      was trimmed to, and ends in three stray characters instead of an
      ellipsis. */
  lemma TrimPathAsWrittenOverlong(path: string)
    requires |BaseName(path)| > MaxPathLength
    ensures |TrimPathAsWritten(path)| == MaxPathLength + 1
    ensures TrimPathAsWritten(path) != TrimPath(path)
    ensures TrimPathAsWritten(path)[..TrimmedPathLength] == TrimPath(path)[..TrimmedPathLength]
  {
  }

  /** A 51-character name: trimming makes it no shorter. */
  lemma TrimPathAsWrittenCounterexample()
    ensures var name := seq(51, _ => 'a');
            |TrimPathAsWritten(name)| == |name| && |TrimPath(name)| == 49
  {
    var name := seq(51, _ => 'a');
    BaseNameOfChild("", name);
  }

  // Relative ages.

  const SecondsPerMinute: nat := 60
  const SecondsPerHour: nat := 3600
  const SecondsPerDay: nat := 86400

  datatype TimeUnit = Seconds | Minutes | Hours | Days | Weeks | Months | Years

  /** The length of one unit, as the division that produces the amount uses it. */
  function UnitLength(u: TimeUnit): nat
  {
    match u
    case Seconds => 1
    case Minutes => SecondsPerMinute
    case Hours => SecondsPerHour
    case Days => SecondsPerDay
    case Weeks => 7 * SecondsPerDay
    case Months => 30 * SecondsPerDay
    case Years => 365 * SecondsPerDay
  }

  function Rank(u: TimeUnit): nat
  {
    match u
    case Seconds => 0
    case Minutes => 1
    case Hours => 2
    case Days => 3
    case Weeks => 4
    case Months => 5
    case Years => 6
  }

  function Suffix(u: TimeUnit): string
  {
    match u
    case Seconds => "s"
    case Minutes => "m"
    case Hours => "h"
    case Days => "d"
    case Weeks => "w"
    case Months => "mo"
    case Years => "y"
  }

  /** An age as ToRelativeTime shows it: "-" for a time never set, or a
      whole number of some unit. */
  datatype Age = Unknown | Ago(amount: nat, unit: TimeUnit)

  /** The unit ToRelativeTime picks for an age of `delta` seconds: the
      largest whose range holds it, where weeks give way to months at
      `monthsFrom` days. */
  function UnitFor(delta: nat, monthsFrom: nat): TimeUnit
  {
    if delta < SecondsPerMinute then Seconds
    else if delta < SecondsPerHour then Minutes
    else if delta < SecondsPerDay then Hours
    else if delta < 7 * SecondsPerDay then Days
    else if delta < monthsFrom * SecondsPerDay then Weeks
    else if delta < 365 * SecondsPerDay then Months
    else Years
  }

  /** The age of `value` at `now`, with months starting at `monthsFrom`
      days. A time in the future counts as zero seconds. */
  function AgeAt(value: Instant, now: Instant, monthsFrom: nat): Age
  {
    if value == MinValue then Unknown
    else if value > now then Ago(0, Seconds)
    else
      var u := UnitFor(now - value, monthsFrom);
      Ago((now - value) / UnitLength(u), u)
  }

  /** csharp14 ToRelativeTime as written: "mo" from 28 days on. */
  function RelativeAgeAsWritten(value: Instant, now: Instant): (r: Age)
    ensures r.Unknown? <==> value == MinValue
    ensures value != MinValue && value > now ==> r == Ago(0, Seconds)
  {
    AgeAt(value, now, 28)
  }

  /** The amount shown is the whole number of units elapsed, rounded down,
      wherever months start. */
  lemma AgeIsWholeUnits(value: Instant, now: Instant, monthsFrom: nat)
    requires MinValue < value <= now
    ensures AgeAt(value, now, monthsFrom).Ago?
    ensures var a := AgeAt(value, now, monthsFrom);
            a.amount * UnitLength(a.unit) <= now - value < (a.amount + 1) * UnitLength(a.unit)
  {
    var delta := now - value;
    var len := UnitLength(UnitFor(delta, monthsFrom));
    assert len > 0;
    var q := delta / len;
    assert delta == q * len + delta % len;
    assert q * len + len == (q + 1) * len;
  }

  /** An age of 28 or 29 days is shown as "0mo". */
  lemma RelativeAgeAsWrittenZeroMonths(value: Instant, now: Instant)
    requires value != MinValue
    requires 28 * SecondsPerDay <= now - value < 30 * SecondsPerDay
    ensures RelativeAgeAsWritten(value, now) == Ago(0, Months)
    ensures Render(RelativeAgeAsWritten(value, now)) == "0mo"
  {
    assert Digits(0) == "0";
  }

  /** ToRelativeTime with weeks kept until a full month of 30 days. */
  function RelativeAge(value: Instant, now: Instant): (r: Age)
    ensures r.Unknown? <==> value == MinValue
    ensures value != MinValue && value > now ==> r == Ago(0, Seconds)
  {
    AgeAt(value, now, 30)
  }

  /** With months from 30 days, only an age under a minute is shown as
      zero: every other age is at least one of its unit. */
  lemma AgeNeverZeroUnits(value: Instant, now: Instant)
    requires value != MinValue && value <= now
    ensures RelativeAge(value, now).unit != Seconds ==> RelativeAge(value, now).amount >= 1
    ensures RelativeAge(value, now).unit == Seconds <==> now - value < SecondsPerMinute
  {
  }

  /** An older time never gets a smaller unit. */
  lemma AgeUnitMonotone(value: Instant, older: Instant, now: Instant)
    requires MinValue < older <= value <= now
    ensures Rank(RelativeAge(older, now).unit) >= Rank(RelativeAge(value, now).unit)
  {
  }

  /** The decimal digits of `n`, most significant first. */
  function Digits(n: nat): (r: string)
    ensures |r| >= 1
    ensures forall i :: 0 <= i < |r| ==> '0' <= r[i] <= '9'
  {
    if n < 10 then [Digit(n)] else Digits(n / 10) + [Digit(n % 10)]
  }

  function Digit(d: nat): char
    requires d < 10
  {
    "0123456789"[d]
  }

  /** The number written in decimal digits. */
  function DigitsValue(s: string): nat
  {
    if s == [] then 0
    else
      var c := s[|s| - 1];
      DigitsValue(s[..|s| - 1]) * 10 + (if '0' <= c <= '9' then (c as int - '0' as int) else 0)
  }

  /** Reading the digits back gives the number. */
  lemma {:induction false} DigitsRoundTrip(n: nat)
    ensures DigitsValue(Digits(n)) == n
    decreases n
  {
    if n >= 10 {
      var q, r := n / 10, n % 10;
      DivTen(n);
      DigitsRoundTrip(q);
      DigitsValueSnoc(Digits(q), r);
    } else {
      DigitsValueSnoc([], n);
    }
  }

  lemma DivTen(n: nat)
    ensures n % 10 < 10 && n == (n / 10) * 10 + n % 10
  {
  }

  /** Appending the digit `d` multiplies the value by ten and adds `d`. */
  lemma DigitsValueSnoc(s: string, d: nat)
    requires d < 10
    ensures DigitsValue(s + [Digit(d)]) == DigitsValue(s) * 10 + d
  {
    var t := s + [Digit(d)];
    assert t[..|t| - 1] == s;
  }

  /** The text ToRelativeTime returns for an age. */
  function Render(a: Age): (r: string)
    ensures r == "-" <==> a.Unknown?
  {
    match a
    case Unknown => "-"
    case Ago(n, u) => Digits(n) + Suffix(u)
  }

  /** csharp14 ToRelativeTime as written. */
  function ToRelativeTime(value: Instant, now: Instant): (r: string)
    ensures r == "-" <==> value == MinValue
  {
    Render(RelativeAgeAsWritten(value, now))
  }
}

// Numbers as runner arguments: written in decimal by the parent, parsed as 32-bit integers by the runner.
module Decimal {
  import opened Wrappers

  const I32_MAX: nat := 0x7fff_ffff

  function Digit(d: nat): char
    requires d < 10
  {
    '0' + d as char
  }

  predicate IsDigit(c: char) { '0' <= c <= '9' }

  function Value(c: char): nat
    requires IsDigit(c)
  {
    c as nat - '0' as nat
  }

  function Text(n: nat): string {
    if n < 10 then [Digit(n)] else Text(n / 10) + [Digit(n % 10)]
  }

  // The digits of s appended to acc, unless one is no digit or the value leaves the range.
  function ParseDigits(s: string, acc: nat, limit: nat): Option<nat> {
    if s == "" then Some(acc)
    else if !IsDigit(s[0]) || acc * 10 + Value(s[0]) > limit then None
    else ParseDigits(s[1..], acc * 10 + Value(s[0]), limit)
  }

  function ParseI32(s: string): Option<int> {
    if s == "" || s == "+" || s == "-" then None
    else if s[0] == '-' then
      var m := ParseDigits(s[1..], 0, I32_MAX + 1);
      if m.None? then None else Some(-(m.value as int))
    else
      var m := ParseDigits(if s[0] == '+' then s[1..] else s, 0, I32_MAX);
      if m.None? then None else Some(m.value as int)
  }

  lemma {:induction false} ParseAppend(s: string, c: char, acc: nat, limit: nat)
    requires IsDigit(c)
    ensures var front := ParseDigits(s, acc, limit);
            ParseDigits(s + [c], acc, limit) ==
              if front.None? || front.value * 10 + Value(c) > limit then None else Some(front.value * 10 + Value(c))
  {
    if s == "" {
      assert [c][1..] == "";
      assert s + [c] == [c];
    } else {
      assert (s + [c])[1..] == s[1..] + [c];
      if IsDigit(s[0]) && acc * 10 + Value(s[0]) <= limit {
        ParseAppend(s[1..], c, acc * 10 + Value(s[0]), limit);
      }
    }
  }

  lemma {:induction false} DigitsParse(n: nat, limit: nat)
    ensures ParseDigits(Text(n), 0, limit) == if n <= limit then Some(n) else None
    ensures Text(n) != "" && IsDigit(Text(n)[0])
  {
    if n < 10 {
      assert Text(n)[1..] == "";
    } else {
      DigitsParse(n / 10, limit);
      ParseAppend(Text(n / 10), Digit(n % 10), 0, limit);
    }
  }

  // A count arrives as it was sent, unless it exceeds what a signed 32-bit integer holds.
  lemma TextParses(n: nat)
    ensures ParseI32(Text(n)) == if n <= I32_MAX then Some(n) else None
  {
    DigitsParse(n, I32_MAX);
  }

  // The text is the usual one: a digit, or the text of the tens followed by the digit of the units.
  lemma TextIsDecimal(n: nat, d: nat)
    requires d < 10
    ensures Text(d) == ["0123456789"[d]]
    ensures n > 0 ==> Text(10 * n + d) == Text(n) + ["0123456789"[d]]
  {
    assert Digit(d) == "0123456789"[d];
    assert (10 * n + d) / 10 == n && (10 * n + d) % 10 == d;
  }

  // A sign may come first; the negative range is one wider.
  lemma SignedTextParses(n: nat)
    ensures ParseI32("+" + Text(n)) == if n <= I32_MAX then Some(n) else None
    ensures ParseI32("-" + Text(n)) == if n <= I32_MAX + 1 then Some(-(n as int)) else None
  {
    DigitsParse(n, I32_MAX);
    DigitsParse(n, I32_MAX + 1);
    assert ("+" + Text(n))[1..] == Text(n) && ("-" + Text(n))[1..] == Text(n);
  }
}

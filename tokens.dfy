/** How a typed token becomes the value a player chooses: digits become an
    integer, anything else is upper-cased and J, Q, K, A become 11..14
    (app.py:49-61 and app.py:91-103). */
module Tokens {
  import opened Cards

  /** What a token stands for after parsing: an integer, or a word that no
      card value can equal (Python compares an int with a str as unequal). */
  datatype Choice = Number(n: nat) | Word(w: string)

  predicate IsDigit(c: char)
  {
    '0' <= c <= '9'
  }

  /** `str.isdigit()` on ASCII text: non-empty and only digits. */
  predicate IsDigitString(s: string)
  {
    s != [] && forall i :: 0 <= i < |s| ==> IsDigit(s[i])
  }

  /** `int(s)` for a string of digits. */
  function NumberOf(s: string): nat
    requires forall i :: 0 <= i < |s| ==> IsDigit(s[i])
  {
    if s == [] then 0 else NumberOf(s[..|s| - 1]) * 10 + DigitValue(s[|s| - 1])
  }

  function DigitValue(c: char): nat
    requires IsDigit(c)
  {
    c as int - 48
  }

  function UpperChar(c: char): char
  {
    if 'a' <= c <= 'z' then (c as int - 32) as char else c
  }

  function LowerChar(c: char): char
  {
    if 'A' <= c <= 'Z' then (c as int + 32) as char else c
  }

  /** `str.upper()` */
  function Upper(s: string): string
  {
    seq(|s|, i requires 0 <= i < |s| => UpperChar(s[i]))
  }

  /** `str.lower()` */
  function Lower(s: string): string
  {
    seq(|s|, i requires 0 <= i < |s| => LowerChar(s[i]))
  }

  /** The value a token selects. */
  function ParseToken(s: string): Choice
  {
    if IsDigitString(s) then Number(NumberOf(s))
    else
      var u := Upper(s);
      if u == "J" then Number(11)
      else if u == "Q" then Number(12)
      else if u == "K" then Number(13)
      else if u == "A" then Number(14)
      else Word(u)
  }

  /** `card.value == card_value` */
  predicate Names(choice: Choice, value: int)
  {
    choice.Number? && choice.n == value
  }

  /** Reading back a decimal rendering gives the number: `int(str(n)) == n`. */
  lemma {:induction false} NumberOfDigitsOf(n: nat)
    ensures IsDigitString(DigitsOf(n)) && NumberOf(DigitsOf(n)) == n
  {
    var s := DigitsOf(n);
    if n >= 10 {
      NumberOfDigitsOf(n / 10);
      assert s[..|s| - 1] == DigitsOf(n / 10);
    }
  }

  /** Typing the label a card shows selects that card's value again, in
      either case. */
  lemma ParseLabel(v: int)
    requires 2 <= v <= 14
    ensures ParseToken(ValueLabel(v)) == Number(v)
    ensures ParseToken(Lower(ValueLabel(v))) == Number(v)
  {
    if v <= 10 {
      NumberOfDigitsOf(v);
      assert Lower(DigitsOf(v)) == DigitsOf(v);
    } else {
      var l := ValueLabel(v);
      assert !IsDigit(l[0]) && !IsDigit(Lower(l)[0]);
      assert Upper(l) == l;
      assert Upper(Lower(l)) == l;
    }
  }

  /** Parsing ignores letter case: a token, its upper-case and its lower-case
      spelling select the same value. */
  lemma ParseIgnoresCase(s: string)
    ensures ParseToken(Upper(s)) == ParseToken(s)
    ensures ParseToken(Lower(s)) == ParseToken(s)
  {
    assert Upper(Upper(s)) == Upper(s);
    assert Upper(Lower(s)) == Upper(s);
    if IsDigitString(s) {
      assert Upper(s) == s && Lower(s) == s;
    } else if s != [] {
      var i :| 0 <= i < |s| && !IsDigit(s[i]);
      assert !IsDigit(Upper(s)[i]) && !IsDigit(Lower(s)[i]);
    }
  }
}

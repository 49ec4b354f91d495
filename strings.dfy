/** Character and string helpers standing in for PHP's `mb_*` functions and
    for the string conversion of integers. Strings are sequences of code points. */
module Strings {

  predicate IsUpperAscii(c: char)
  {
    'A' <= c <= 'Z'
  }

  predicate IsDigit(c: char)
  {
    '0' <= c <= '9'
  }

  /** `mb_strtolower` on one code point, restricted to ASCII letters. */
  function LowerChar(c: char): char
  {
    if IsUpperAscii(c) then (c as int + 32) as char else c
  }

  /** `mb_strtolower`, restricted to ASCII letters: every other code point is kept. */
  function Lower(s: string): (r: string)
    ensures |r| == |s|
    ensures forall i :: 0 <= i < |s| ==> r[i] == LowerChar(s[i])
    ensures forall i :: 0 <= i < |r| ==> !IsUpperAscii(r[i])
  {
    seq(|s|, i requires 0 <= i < |s| => LowerChar(s[i]))
  }

  /** No ASCII upper-case letter occurs in `s`. */
  predicate IsLowerCase(s: string)
  {
    forall i :: 0 <= i < |s| ==> !IsUpperAscii(s[i])
  }

  lemma LowerIdempotent(s: string)
    ensures Lower(Lower(s)) == Lower(s)
  {
  }

  /** Lowering a string that has no upper-case letter changes nothing. */
  lemma LowerOfLowerCase(s: string)
    requires IsLowerCase(s)
    ensures Lower(s) == s
  {
  }

  /** Index of the first character of `s` that lies in `d`, or `|s|` when there is none. */
  function FirstIndexIn(s: string, d: set<char>): (k: nat)
    ensures k <= |s|
    ensures forall j :: 0 <= j < k ==> s[j] !in d
    ensures k < |s| ==> s[k] in d
  {
    if s == [] then 0
    else if s[0] in d then 0
    else 1 + FirstIndexIn(s[1..], d)
  }

  /** The three properties in FirstIndexIn's contract pin the index down. */
  lemma FirstIndexInUnique(s: string, d: set<char>, k: nat)
    requires k <= |s|
    requires forall j :: 0 <= j < k ==> s[j] !in d
    requires k < |s| ==> s[k] in d
    ensures FirstIndexIn(s, d) == k
  {
  }

  /** No character of `s` lies in `d`. */
  predicate NoneIn(s: string, d: set<char>)
  {
    forall j :: 0 <= j < |s| ==> s[j] !in d
  }

  lemma NoneInConcat(a: string, b: string, d: set<char>)
    requires NoneIn(a, d) && NoneIn(b, d)
    ensures NoneIn(a + b, d)
  {
  }

  /** In `a + b`, where no character of `a` lies in `d` and `b` is empty or starts with
      a character of `d`, the first character of `d` sits right after `a`. */
  lemma FirstIndexAfter(a: string, b: string, d: set<char>)
    requires NoneIn(a, d)
    requires b != [] ==> b[0] in d
    ensures FirstIndexIn(a + b, d) == |a|
  {
    FirstIndexInUnique(a + b, d, |a|);
  }

  /** `mb_strpos($s, $t) !== false`: `t` occurs in `s` at some position. */
  predicate Contains(s: string, t: string)
  {
    |t| <= |s| && (s[..|t|] == t || Contains(s[1..], t))
  }

  /** `t` occurs in `s` starting at index `i`. */
  predicate OccursAt(s: string, t: string, i: int)
  {
    0 <= i && i + |t| <= |s| && s[i..i + |t|] == t
  }

  lemma {:induction false} ContainsAt(s: string, t: string, i: nat)
    requires OccursAt(s, t, i)
    ensures Contains(s, t)
  {
    if i > 0 {
      assert s[1..][i - 1..i - 1 + |t|] == s[i..i + |t|];
      ContainsAt(s[1..], t, i - 1);
    }
  }

  /** Contains agrees with the positional definition of an occurrence. */
  lemma {:induction false} ContainsIff(s: string, t: string)
    ensures Contains(s, t) <==> exists i :: OccursAt(s, t, i)
  {
    if Contains(s, t) {
      if s[..|t|] == t {
        assert OccursAt(s, t, 0);
      } else {
        ContainsIff(s[1..], t);
        var i :| OccursAt(s[1..], t, i);
        assert s[i + 1..i + 1 + |t|] == s[1..][i..i + |t|];
        assert OccursAt(s, t, i + 1);
      }
    }
    if exists i :: OccursAt(s, t, i) {
      var i :| OccursAt(s, t, i);
      ContainsAt(s, t, i);
    }
  }

  /** Whatever surrounds `t`, it is contained in the concatenation. */
  lemma ContainsInConcat(a: string, t: string, b: string)
    ensures Contains(a + t + b, t)
  {
    assert (a + t + b)[|a|..|a| + |t|] == t;
    assert OccursAt(a + t + b, t, |a|);
    ContainsAt(a + t + b, t, |a|);
  }

  /** `implode($sep, $parts)`. */
  function Join(parts: seq<string>, sep: string): string
  {
    if parts == [] then ""
    else if |parts| == 1 then parts[0]
    else parts[0] + sep + Join(parts[1..], sep)
  }

  /** The parts written one after the other (`.=` in a loop). */
  function Concat(parts: seq<string>): string
  {
    if parts == [] then "" else Concat(parts[..|parts| - 1]) + parts[|parts| - 1]
  }

  /** Concatenating two runs of parts is concatenating their results. */
  lemma {:induction false} ConcatAppend(a: seq<string>, b: seq<string>)
    ensures Concat(a + b) == Concat(a) + Concat(b)
    decreases |b|
  {
    if b == [] {
      assert a + b == a;
    } else {
      var front, last := b[..|b| - 1], b[|b| - 1];
      calc {
        Concat(a + b);
        { assert (a + b)[..|a + b| - 1] == a + front; }
        Concat(a + front) + last;
        { ConcatAppend(a, front); }
        Concat(a) + Concat(front) + last;
        Concat(a) + (Concat(front) + last);
      }
    }
  }

  function DigitChar(d: nat): (c: char)
    requires d < 10
    ensures IsDigit(c)
  {
    ('0' as int + d) as char
  }

  /** PHP's decimal rendering of a non-negative integer. */
  function NatToDecimal(n: nat): (r: string)
    ensures r != []
    ensures forall i :: 0 <= i < |r| ==> IsDigit(r[i])
    decreases n
  {
    if n < 10 then [DigitChar(n)] else NatToDecimal(n / 10) + [DigitChar(n % 10)]
  }

  /** PHP's string conversion of an integer (`"$n"`, `'x' . $n`). */
  function IntToDecimal(n: int): (r: string)
    ensures r != []
    ensures forall i :: 0 <= i < |r| ==> IsDigit(r[i]) || r[i] == '-'
  {
    if n < 0 then "-" + NatToDecimal(-n) else NatToDecimal(n)
  }

  /** Inverse of NatToDecimal on strings of digits. */
  function DecimalValue(s: string): nat
    requires forall i :: 0 <= i < |s| ==> IsDigit(s[i])
  {
    if s == [] then 0
    else
      assert IsDigit(s[|s| - 1]);
      10 * DecimalValue(s[..|s| - 1]) + (s[|s| - 1] as int - '0' as int)
  }

  lemma {:induction false} DecimalRoundTrip(n: nat)
    ensures DecimalValue(NatToDecimal(n)) == n
    decreases n
  {
    if n >= 10 {
      var r := NatToDecimal(n);
      assert r[..|r| - 1] == NatToDecimal(n / 10);
      DecimalRoundTrip(n / 10);
    }
  }
}

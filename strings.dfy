/** Text helpers shared by the model: ASCII lower-casing, prefix and
    substring tests, first-index search and decimal rendering of counts. */
module Strings {
  import opened Wrappers

  predicate IsUpper(c: char) { 'A' <= c <= 'Z' }

  /** `String.prototype.toLowerCase` on one character (ASCII letters only). */
  function Lower(c: char): (r: char)
    ensures !IsUpper(r)
    ensures IsUpper(c) ==> r as int == c as int + 32
    ensures !IsUpper(c) ==> r == c
  {
    if IsUpper(c) then (c as int + 32) as char else c
  }

  function ToLower(s: string): (r: string)
    ensures |r| == |s|
    ensures forall i :: 0 <= i < |s| ==> r[i] == Lower(s[i])
  {
    seq(|s|, i requires 0 <= i < |s| => Lower(s[i]))
  }

  /** A string with no upper-case letter, what `toLowerCase` produces. */
  predicate IsLowerCase(s: string) {
    forall i :: 0 <= i < |s| ==> !IsUpper(s[i])
  }

  lemma ToLowerIsLowerCase(s: string)
    ensures IsLowerCase(ToLower(s))
    ensures ToLower(ToLower(s)) == ToLower(s)
  {
  }

  lemma LowerCaseFixed(s: string)
    requires IsLowerCase(s)
    ensures ToLower(s) == s
  {
  }

  lemma ToLowerAppend(a: string, b: string)
    ensures ToLower(a + b) == ToLower(a) + ToLower(b)
  {
  }

  /** `s.includes(sub)`: `sub` occurs in `s` at some position. */
  predicate Contains(s: string, sub: string)
    decreases |s|
  {
    sub <= s || (|s| > 0 && Contains(s[1..], sub))
  }

  lemma {:induction false} ContainsAt(s: string, sub: string, i: nat)
    requires i + |sub| <= |s| && s[i..i + |sub|] == sub
    ensures Contains(s, sub)
    decreases i
  {
    if i == 0 {
      assert sub <= s;
    } else {
      assert s[1..][i - 1..i - 1 + |sub|] == s[i..i + |sub|];
      ContainsAt(s[1..], sub, i - 1);
    }
  }

  lemma {:induction false} ContainsWitness(s: string, sub: string) returns (i: nat)
    requires Contains(s, sub)
    ensures i + |sub| <= |s| && s[i..i + |sub|] == sub
    decreases |s|
  {
    if sub <= s {
      i := 0;
    } else {
      var j := ContainsWitness(s[1..], sub);
      i := j + 1;
      assert s[1..][j..j + |sub|] == s[i..i + |sub|];
    }
  }

  /** The first index of `c` in `s`, as `indexOf` finds it. */
  function IndexOf(s: string, c: char): (r: Option<nat>)
    ensures r.Some? ==> r.value < |s| && s[r.value] == c && c !in s[..r.value]
    ensures r.None? <==> c !in s
  {
    if |s| == 0 then None
    else if s[0] == c then Some(0)
    else match IndexOf(s[1..], c)
      case None => None
      case Some(k) => assert s[..k + 1] == [s[0]] + s[1..][..k]; Some(k + 1)
  }

  function DigitChar(d: nat): (r: char)
    requires d < 10
    ensures '0' <= r <= '9'
  {
    ('0' as int + d) as char
  }

  /** The decimal text of a count, as a template literal renders it. */
  function NatToString(n: nat): (r: string)
    ensures |r| > 0
    ensures forall i :: 0 <= i < |r| ==> '0' <= r[i] <= '9'
    decreases n
  {
    if n < 10 then [DigitChar(n)] else NatToString(n / 10) + [DigitChar(n % 10)]
  }

  /** Reads back a string of decimal digits. */
  function ParseNat(s: string): (r: nat)
    requires forall i :: 0 <= i < |s| ==> '0' <= s[i] <= '9'
    decreases |s|
  {
    if |s| == 0 then 0 else 10 * ParseNat(s[..|s| - 1]) + (s[|s| - 1] as int - '0' as int)
  }

  /** Rendering a count and reading it back gives the count again, so two
      different counts never render alike. */
  lemma {:induction false} ParseNatToString(n: nat)
    ensures ParseNat(NatToString(n)) == n
    decreases n
  {
    if n >= 10 {
      var s := NatToString(n);
      assert s[..|s| - 1] == NatToString(n / 10);
      ParseNatToString(n / 10);
    }
  }

  lemma NatToStringInjective(m: nat, n: nat)
    requires NatToString(m) == NatToString(n)
    ensures m == n
  {
    ParseNatToString(m);
    ParseNatToString(n);
  }

  lemma HeadOfConcat(a: string, t: string)
    requires |a| > 0
    ensures (a + t)[0] == a[0]
  {
  }

  /** A digit string followed by text that starts with a space is split
      in only one way. */
  lemma {:induction false} DigitsThenSpace(a1: string, t1: string, a2: string, t2: string)
    requires forall i :: 0 <= i < |a1| ==> '0' <= a1[i] <= '9'
    requires forall i :: 0 <= i < |a2| ==> '0' <= a2[i] <= '9'
    requires |t1| > 0 && t1[0] == ' ' && |t2| > 0 && t2[0] == ' '
    requires a1 + t1 == a2 + t2
    ensures a1 == a2 && t1 == t2
    decreases |a1|
  {
    if |a1| == 0 && |a2| == 0 {
      assert a1 + t1 == t1 && a2 + t2 == t2;
    } else if |a1| == 0 || |a2| == 0 {
      if |a1| > 0 {
        HeadOfConcat(a1, t1);
      } else {
        HeadOfConcat(a2, t2);
      }
      assert false;
    } else {
      assert (a1 + t1)[1..] == a1[1..] + t1 && (a2 + t2)[1..] == a2[1..] + t2;
      DigitsThenSpace(a1[1..], t1, a2[1..], t2);
      assert a1 == [a1[0]] + a1[1..] && a2 == [a2[0]] + a2[1..];
      assert a1[0] == (a1 + t1)[0] == (a2 + t2)[0] == a2[0];
    }
  }

  /** A rendered count followed by text that starts with a space gives
      back both the count and the text. */
  lemma CountThenSpace(n1: nat, t1: string, n2: nat, t2: string)
    requires |t1| > 0 && t1[0] == ' ' && |t2| > 0 && t2[0] == ' '
    requires NatToString(n1) + t1 == NatToString(n2) + t2
    ensures n1 == n2 && t1 == t2
  {
    DigitsThenSpace(NatToString(n1), t1, NatToString(n2), t2);
    NatToStringInjective(n1, n2);
  }

  /** `parts.join(sep)`. */
  function Join(parts: seq<string>, sep: string): string
  {
    if |parts| == 0 then ""
    else if |parts| == 1 then parts[0]
    else parts[0] + sep + Join(parts[1..], sep)
  }
}

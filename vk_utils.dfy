/**
  vk_utils.py: the VK mention markup `[id<user_id>|<first_name>]`, with
  Python's `str(int)` decimal rendering written out.
 */
module VkUtils {

  predicate IsDigit(c: char) {
    '0' <= c <= '9'
  }

  /** The decimal digits of `n`, most significant first, with no leading
      zero except for `n == 0` itself. */
  function NatDigits(n: nat): (s: string)
    ensures |s| >= 1
    ensures forall i :: 0 <= i < |s| ==> IsDigit(s[i])
    ensures |s| > 1 ==> s[0] != '0'
    decreases n
  {
    var d := ['0' + (n % 10) as char];
    if n < 10 then d else NatDigits(n / 10) + d
  }

  /** `str(n)` for a Python `int`: a minus sign before the digits of `|n|`
      when `n` is negative. */
  function IntToString(n: int): (s: string)
    ensures |s| >= 1
    ensures '|' !in s && ']' !in s
  {
    if n < 0 then "-" + NatDigits(-n) else NatDigits(n)
  }

  /** The value of a string of decimal digits (the reading `int(s)` gives). */
  function DigitsValue(s: string): nat
    requires forall i :: 0 <= i < |s| ==> IsDigit(s[i])
  {
    if s == [] then 0
    else
      assert IsDigit(s[|s| - 1]);
      DigitsValue(s[..|s| - 1]) * 10 + (s[|s| - 1] as int - '0' as int)
  }

  /** `int(s)` for the strings `str` produces. */
  function ParseInt(s: string): int
    requires |s| >= 1
    requires forall i :: 1 <= i < |s| ==> IsDigit(s[i])
    requires s[0] == '-' || IsDigit(s[0])
  {
    if s[0] == '-' then 0 - DigitsValue(s[1..]) as int else DigitsValue(s)
  }

  /** Reading back the digits of `n` gives `n`. */
  lemma {:induction false} DigitsRoundTrip(n: nat)
    ensures DigitsValue(NatDigits(n)) == n
    decreases n
  {
    var s := NatDigits(n);
    if n >= 10 {
      DigitsRoundTrip(n / 10);
      assert s[..|s| - 1] == NatDigits(n / 10);
    }
  }

  /** `int(str(n)) == n`, so `str` is injective on integers. */
  lemma IntRoundTrip(n: int)
    ensures var s := IntToString(n);
      (s[0] == '-' || IsDigit(s[0])) && (forall i :: 1 <= i < |s| ==> IsDigit(s[i])) && ParseInt(s) == n
  {
    var s := IntToString(n);
    if n < 0 {
      DigitsRoundTrip(-n);
      assert s[1..] == NatDigits(-n);
    } else {
      DigitsRoundTrip(n);
    }
  }

  /** `format_vk_user_mention`: `"[id"`, the decimal id, `"|"`, the name,
      `"]"`; five characters of markup around the two parts. */
  function Mention(userId: int, firstName: string): (m: string)
    ensures |m| == |IntToString(userId)| + |firstName| + 5
    ensures m[..3] == "[id" && m[|m| - 1] == ']'
    ensures m[3..3 + |IntToString(userId)|] == IntToString(userId)
    ensures m[3 + |IntToString(userId)|] == '|' && '|' !in m[3..3 + |IntToString(userId)|]
    ensures m[4 + |IntToString(userId)|..|m| - 1] == firstName
  {
    var s := IntToString(userId);
    var m := "[id" + s + "|" + firstName + "]";
    assert m[3..3 + |s|] == s;
    assert m[4 + |s|..|m| - 1] == firstName;
    m
  }

  /** Distinct `(user_id, first_name)` pairs give distinct mentions, whatever
      the name contains (a `|` or `]` in the name included): the first `|`
      always ends the id. */
  lemma {:induction false} MentionInjective(id1: int, name1: string, id2: int, name2: string)
    requires Mention(id1, name1) == Mention(id2, name2)
    ensures id1 == id2 && name1 == name2
  {
    var m := Mention(id1, name1);
    var s1, s2 := IntToString(id1), IntToString(id2);
    assert |s1| == |s2|;
    assert s1 == s2;
    IntRoundTrip(id1);
    IntRoundTrip(id2);
  }
}

/**
 * The two pieces of the Rust standard library the object-module parser relies
 * on: `str::split(' ')` and `str::parse` for unsigned integers. Both are
 * modelled as functions with their inverses, a joiner and a decimal printer.
 */
module Text {
  import opened Wrappers
  import opened Words

  predicate IsDigit(c: char) { '0' <= c <= '9' }

  predicate AllDigits(s: string)
  {
    forall i :: 0 <= i < |s| ==> IsDigit(s[i])
  }

  predicate NoSpace(s: string)
  {
    forall i :: 0 <= i < |s| ==> s[i] != ' '
  }

  /** The value of a string of decimal digits, most significant first. */
  function DigitsValue(s: string): nat
    requires AllDigits(s)
  {
    if |s| == 0 then 0 else DigitsValue(s[..|s| - 1]) * 10 + (s[|s| - 1] as int - '0' as int)
  }

  /**
   * `str::parse` for an unsigned integer type whose values lie below `bound`:
   * an optional `+`, then at least one ASCII digit, and no overflow. A `-`
   * is an invalid digit for unsigned types.
   */
  function ParseUnsigned(s: string, bound: nat): (r: Option<nat>)
    ensures r.Some? ==> r.value < bound
    ensures r.Some? ==> |s| > 0 && (IsDigit(s[0]) || (s[0] == '+' && |s| > 1))
    ensures r.Some? ==> forall i :: 0 < i < |s| ==> IsDigit(s[i])
  {
    var digits := if |s| > 0 && s[0] == '+' then s[1..] else s;
    if |digits| > 0 && AllDigits(digits) && DigitsValue(digits) < bound then
      Some(DigitsValue(digits))
    else
      None
  }

  /**
   * The converse of `ParseUnsigned`'s contract: every digit string, with or
   * without a leading `+`, parses exactly when its value is below the bound,
   * and then to that value.
   */
  lemma ParseUnsignedAccepts(s: string, bound: nat)
    ensures |s| > 0 && AllDigits(s) ==>
      ParseUnsigned(s, bound) == if DigitsValue(s) < bound then Some(DigitsValue(s)) else None
    ensures |s| > 1 && s[0] == '+' && AllDigits(s[1..]) ==>
      ParseUnsigned(s, bound) == if DigitsValue(s[1..]) < bound then Some(DigitsValue(s[1..])) else None
  {
  }

  /** A leading zero does not change the value of a digit string. */
  lemma {:induction false} ZeroPrefixValue(s: string)
    requires AllDigits(s)
    ensures AllDigits("0" + s) && DigitsValue("0" + s) == DigitsValue(s)
  {
    var t := "0" + s;
    assert AllDigits(t) by {
      forall i | 0 <= i < |t| ensures IsDigit(t[i]) {
        if i > 0 { assert t[i] == s[i - 1]; }
      }
    }
    if |s| > 0 {
      var init := s[..|s| - 1];
      ZeroPrefixValue(init);
      assert t[..|t| - 1] == "0" + init;
      assert t[|t| - 1] == s[|s| - 1];
    }
  }

  /**
   * Leading zeros and a leading `+` are accepted and do not change the value:
   * `"007"` and `"+7"` parse as `"7"` does.
   */
  lemma {:induction false} LeadingZeroAndSign(s: string, bound: nat)
    requires |s| > 0 && AllDigits(s)
    ensures ParseUnsigned("0" + s, bound) == ParseUnsigned(s, bound)
    ensures ParseUnsigned("+" + s, bound) == ParseUnsigned(s, bound)
  {
    ZeroPrefixValue(s);
    ParseUnsignedAccepts("0" + s, bound);
    ParseUnsignedAccepts(s, bound);
    assert ("+" + s)[1..] == s;
    ParseUnsignedAccepts("+" + s, bound);
  }

  /** `s.parse::<u32>()` */
  function ParseWord(s: string): Option<Word>
  {
    match ParseUnsigned(s, WORD_MOD)
    case None => None
    case Some(v) => Some(v)
  }

  /** `s.parse::<usize>()` */
  function ParseUSize(s: string): Option<USize>
  {
    match ParseUnsigned(s, USIZE_MOD)
    case None => None
    case Some(v) => Some(v)
  }

  function DigitChar(d: nat): (c: char)
    requires d < 10
    ensures IsDigit(c) && c as int - '0' as int == d
  {
    ('0' as int + d) as char
  }

  /** The decimal rendering of `n` without leading zeros. */
  function Show(n: nat): (s: string)
    ensures |s| > 0 && AllDigits(s)
  {
    if n < 10 then [DigitChar(n)] else Show(n / 10) + [DigitChar(n % 10)]
  }

  lemma {:induction false} ShowValue(n: nat)
    ensures DigitsValue(Show(n)) == n
  {
    if n >= 10 {
      ShowValue(n / 10);
      var s := Show(n);
      assert s[..|s| - 1] == Show(n / 10);
    }
  }

  /** Parsing the decimal rendering of any value below the bound gives the value back. */
  lemma {:induction false} ParseShow(n: nat, bound: nat)
    requires n < bound
    ensures ParseUnsigned(Show(n), bound) == Some(n)
  {
    ShowValue(n);
  }

  /** `s.split(' ')`: the pieces between single spaces, empty pieces included. */
  function Split(s: string): (parts: seq<string>)
    ensures |parts| >= 1
    ensures forall i :: 0 <= i < |parts| ==> NoSpace(parts[i])
  {
    if |s| == 0 then [""]
    else
      var rest := Split(s[1..]);
      if s[0] == ' ' then [""] + rest
      else [[s[0]] + rest[0]] + rest[1..]
  }

  /** Joins pieces with single spaces. */
  function Join(parts: seq<string>): string
    requires |parts| >= 1
  {
    if |parts| == 1 then parts[0] else parts[0] + " " + Join(parts[1..])
  }

  lemma {:induction false} JoinSplit(s: string)
    ensures Join(Split(s)) == s
  {
    if |s| > 0 {
      JoinSplit(s[1..]);
      var rest := Split(s[1..]);
      if s[0] == ' ' {
        assert s == " " + s[1..];
      } else if |rest| == 1 {
        assert s == [s[0]] + s[1..];
      } else {
        assert Join(rest) == rest[0] + " " + Join(rest[1..]);
        assert s == [s[0]] + s[1..];
      }
    }
  }

  lemma {:induction false} SplitSpaceFree(s: string)
    requires NoSpace(s)
    ensures Split(s) == [s]
  {
    if |s| > 0 {
      SplitSpaceFree(s[1..]);
      assert [s[0]] + s[1..] == s;
    }
  }

  lemma {:induction false} SplitAtSpace(a: string, b: string)
    requires NoSpace(a)
    ensures Split(a + " " + b) == [a] + Split(b)
  {
    if |a| == 0 {
      assert a + " " + b == " " + b;
      assert (" " + b)[1..] == b;
    } else {
      SplitAtSpace(a[1..], b);
      assert (a + " " + b)[1..] == a[1..] + " " + b;
      assert [a[0]] + a[1..] == a;
    }
  }

  /** `parse_tuple`: a line splits into exactly two pieces. */
  function SplitPair(s: string): Option<(string, string)>
  {
    var parts := Split(s);
    if |parts| == 2 then Some((parts[0], parts[1])) else None
  }

  /** A line is a pair exactly when it is two space-free pieces around one space. */
  lemma {:induction false} SplitPairIff(s: string, a: string, b: string)
    ensures SplitPair(s) == Some((a, b)) <==> s == a + " " + b && NoSpace(a) && NoSpace(b)
  {
    if SplitPair(s) == Some((a, b)) {
      JoinSplit(s);
      assert Split(s) == [a, b];
      assert Join([a, b]) == a + " " + Join([b]);
    }
    if s == a + " " + b && NoSpace(a) && NoSpace(b) {
      SplitAtSpace(a, b);
      SplitSpaceFree(b);
    }
  }
}

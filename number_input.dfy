/** get_number_input of blogtitle.py: the console prompt that re-asks until the
    stripped reply is empty (the default) or an integer inside [min_val, max_val].
    The replies the user types are a parameter; running out of them is the EOFError
    input() raises. */
module NumberInput {
  import opened Text

  predicate AllDigits(s: string) { forall i :: 0 <= i < |s| ==> IsDigit(s[i]) }

  function DigitValue(c: char): nat requires IsDigit(c) { c as int - '0' as int }

  /** The value of a run of decimal digits. */
  function DigitsValue(s: string): nat
    requires AllDigits(s)
  {
    if s == [] then 0 else 10 * DigitsValue(s[..|s| - 1]) + DigitValue(s[|s| - 1])
  }

  /** int() on an already stripped reply: an optional sign, then ASCII digits. */
  function ParseInt(s: string): (r: Option<int>)
    ensures r.Some? ==> s != [] && (IsDigit(s[0]) || s[0] == '-' || s[0] == '+')
    ensures s != [] && AllDigits(s) ==> r == Some(DigitsValue(s))
  {
    if s != [] && AllDigits(s) then Some(DigitsValue(s))
    else if |s| >= 2 && (s[0] == '-' || s[0] == '+') && AllDigits(s[1..]) then
      Some(if s[0] == '-' then 0 - DigitsValue(s[1..]) as int else DigitsValue(s[1..]))
    else None
  }

  /** str(n) reads back as n. */
  lemma {:induction false} DigitsValueOfNat(n: nat)
    ensures DigitsValue(NatToString(n)) == n
    decreases n
  {
    if n >= 10 {
      DigitsValueOfNat(n / 10);
      var s := NatToString(n);
      assert s[..|s| - 1] == NatToString(n / 10);
    }
  }

  /** The replies int() accepts include every rendered integer, with its sign. */
  lemma ParseIntRoundTrip(n: nat)
    ensures ParseInt(NatToString(n)) == Some(n)
    ensures ParseInt("-" + NatToString(n)) == Some(0 - n as int)
  {
    DigitsValueOfNat(n);
    assert ("-" + NatToString(n))[1..] == NatToString(n);
  }

  /** A reply that ends the prompt: empty after strip, or a number inside the bounds. */
  predicate Accepts(reply: string, lo: int, hi: int)
  {
    var s := Strip(reply);
    s == [] || (ParseInt(s).Some? && lo <= ParseInt(s).value <= hi)
  }

  /** What an accepted reply returns. */
  function Value(reply: string, lo: int, hi: int, default: int): (r: int)
    requires Accepts(reply, lo, hi)
    ensures r == default || lo <= r <= hi
  {
    var s := Strip(reply);
    if s == [] then default else ParseInt(s).value
  }

  /** The number get_number_input returns after the given replies; None when the
      replies run out first. */
  function Answer(replies: seq<string>, lo: int, hi: int, default: int): Option<int>
  {
    if replies == [] then None
    else if Accepts(replies[0], lo, hi) then Some(Value(replies[0], lo, hi, default))
    else Answer(replies[1..], lo, hi, default)
  }

  /** The prompt loop: each reply is stripped; an empty one gives the default, a
      number inside the bounds is returned, anything else is asked again. */
  method GetNumberInput(replies: seq<string>, minVal: int, maxVal: int, default: int) returns (r: Option<int>)
    ensures r == Answer(replies, minVal, maxVal, default)
  {
    var i := 0;
    while i < |replies|
      invariant 0 <= i <= |replies|
      invariant Answer(replies[i..], minVal, maxVal, default) == Answer(replies, minVal, maxVal, default)
    {
      assert replies[i..][1..] == replies[i + 1..];
      var userInput := Strip(replies[i]);
      if userInput == [] {
        return Some(default);
      }
      var num := ParseInt(userInput);
      if num.Some? && minVal <= num.value <= maxVal {
        return Some(num.value);
      }
      i := i + 1;
    }
    return None;
  }

  /** The answer is the value of the first accepted reply; every reply before it was
      asked again. */
  lemma {:induction false} AnswerFirstAccepted(replies: seq<string>, lo: int, hi: int, default: int, k: nat)
    requires k < |replies| && Accepts(replies[k], lo, hi)
    requires forall j :: 0 <= j < k ==> !Accepts(replies[j], lo, hi)
    ensures Answer(replies, lo, hi, default) == Some(Value(replies[k], lo, hi, default))
    decreases k
  {
    if k > 0 {
      assert !Accepts(replies[0], lo, hi);
      AnswerFirstAccepted(replies[1..], lo, hi, default, k - 1);
    }
  }

  /** Without an accepted reply the prompt never returns. */
  lemma {:induction false} AnswerNone(replies: seq<string>, lo: int, hi: int, default: int)
    requires forall j :: 0 <= j < |replies| ==> !Accepts(replies[j], lo, hi)
    ensures Answer(replies, lo, hi, default).None?
  {
    if replies != [] {
      AnswerNone(replies[1..], lo, hi, default);
    }
  }

  /** Whatever it returns is the default or a number inside [min_val, max_val]. */
  lemma {:induction false} AnswerInRange(replies: seq<string>, lo: int, hi: int, default: int)
    requires Answer(replies, lo, hi, default).Some?
    ensures var n := Answer(replies, lo, hi, default).value; n == default || lo <= n <= hi
  {
    if !Accepts(replies[0], lo, hi) {
      AnswerInRange(replies[1..], lo, hi, default);
    }
  }

  /** An empty first reply gives the default, whether or not the default lies inside
      the bounds. */
  lemma EmptyReplyDefault(reply: string, rest: seq<string>, lo: int, hi: int, default: int)
    requires AllSpace(reply)
    ensures Answer([reply] + rest, lo, hi, default) == Some(default)
  {
    StripEmpty(reply);
  }
}

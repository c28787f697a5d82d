/** Values that stand for the JVM's exceptions and Kotlin's `Result`.
    A call that may throw returns a `Call`: either the value it returned or the
    exception it threw.  Kotlin's `Result` (what `runCatching` and
    `Result.failure` build) is a separate datatype because the bot renders it
    with its own `toString`. */
module Outcomes {

  datatype Option<+T> = None | Some(value: T)

  /** A `java.lang.Throwable`: its class name and its (nullable) message. */
  datatype Throwable = Throwable(className: string, message: Option<string>)
  {
    /** `Throwable.toString()`: the class name, then `": "` and the message when there is one. */
    function ToString(): (r: string)
      ensures |r| >= |className| && r[..|className|] == className
      ensures message.None? ==> r == className
      ensures message.Some? ==> r[|className|..] == ": " + message.value
    {
      match message
      case None => className
      case Some(m) => className + ": " + m
    }

    /** How Kotlin renders `${error.message}`: a null message prints as `null`. */
    function MessageText(): (r: string)
      ensures message.Some? ==> r == message.value
      ensures message.None? ==> r == "null"
    {
      match message
      case None => "null"
      case Some(m) => m
    }
  }

  /** The outcome of a call that may throw. */
  datatype Call<+T> = Returned(value: T) | Threw(cause: Throwable)

  /** Kotlin's `Result<T>`. */
  datatype Result<+T> = Success(value: T) | Failure(exception: Throwable)

  /** `Result<String>.toString()`: `Success(v)` or `Failure(<throwable>)`. */
  function ResultToString(r: Result<string>): (s: string)
    ensures r.Success? ==> s == "Success(" + r.value + ")"
    ensures r.Failure? ==> s == "Failure(" + r.exception.ToString() + ")"
    ensures |s| >= 9 && s[|s| - 1] == ')'
  {
    match r
    case Success(v) => "Success(" + v + ")"
    case Failure(e) => "Failure(" + e.ToString() + ")"
  }

  /** A success's text is told apart from every other result's: it starts with
      `Success(` where a failure's starts with `Failure(`, and the value is read back
      from between the parentheses. */
  lemma SuccessTextDistinct(a: Result<string>, b: Result<string>)
    requires a.Success?
    ensures ResultToString(a) == ResultToString(b) <==> a == b
  {
    var s := ResultToString(a);
    if b.Failure? {
      assert s[0] == 'S' && ResultToString(b)[0] == 'F';
    } else if ResultToString(b) == s {
      assert a.value == s[8..|s| - 1];
      assert b.value == ResultToString(b)[8..|s| - 1];
    }
  }

  /** The index of the first occurrence of `c` in `s`, if any (`indexOf`). */
  function IndexOf(s: string, c: char): (r: Option<nat>)
    ensures r.None? <==> c !in s
    ensures r.Some? ==> r.value < |s| && s[r.value] == c && c !in s[..r.value]
  {
    if s == [] then None
    else if s[0] == c then Some(0)
    else
      match IndexOf(s[1..], c)
      case None => None
      case Some(i) =>
        assert s[..i + 1] == [s[0]] + s[1..][..i];
        Some(i + 1)
  }

  /** The first `c` after a stretch without `c` is found right after that stretch. */
  lemma {:induction false} IndexOfFirst(u: string, c: char, v: string)
    requires c !in u
    ensures IndexOf(u + [c] + v, c) == Some(|u|)
  {
    if u == [] {
      assert u + [c] + v == [c] + v;
    } else {
      assert (u + [c] + v)[1..] == u[1..] + [c] + v;
      IndexOfFirst(u[1..], c, v);
    }
  }

  /** Kotlin's `Int`: a 32-bit signed integer. */
  newtype Int32 = x: int | -0x8000_0000 <= x < 0x8000_0000

  /** The text `toInt()` reads: an optional `-`, then one or more decimal digits. */
  predicate IsNumeral(s: string)
  {
    var digits := if |s| > 0 && s[0] == '-' then s[1..] else s;
    |digits| > 0 && forall k :: 0 <= k < |digits| ==> '0' <= digits[k] <= '9'
  }

  /** The value of a numeral. */
  function NumeralValue(s: string): int
    requires IsNumeral(s)
  {
    if s[0] == '-' then -(ParseNat(s[1..]) as int) else ParseNat(s)
  }

  /** The decimal text of a number is a numeral with that value. */
  lemma IntToStringIsNumeral(n: int)
    ensures IsNumeral(IntToString(n)) && NumeralValue(IntToString(n)) == n
  {
    var r := IntToString(n);
    if n < 0 {
      assert r[1..] != [];
      assert forall k :: 0 <= k < |r[1..]| ==> r[1..][k] == r[k + 1];
    }
  }

  /** Kotlin's `toString()` of an `Int`, in decimal with a leading `-` when negative. */
  function IntToString(n: int): (r: string)
    ensures |r| >= 1
    ensures n < 0 <==> r[0] == '-'
    ensures forall k :: (if n < 0 then 1 else 0) <= k < |r| ==> '0' <= r[k] <= '9'
    ensures n >= 0 ==> ParseNat(r) == n
    ensures n < 0 ==> ParseNat(r[1..]) == -n
  {
    if n < 0 then "-" + NatToString(-n) else NatToString(n)
  }

  /** Decimal digits of `n`, most significant first, without leading zeros. */
  function NatToString(n: nat): (r: string)
    ensures |r| >= 1
    ensures forall k :: 0 <= k < |r| ==> '0' <= r[k] <= '9'
    ensures ParseNat(r) == n
    decreases n
  {
    var d := [(n % 10) as char + '0'];
    if n < 10 then d else NatToString(n / 10) + d
  }

  /** Reads a string of decimal digits (most significant first) back as a number. */
  function ParseNat(s: string): nat
  {
    if s == [] then 0
    else ParseNat(s[..|s| - 1]) * 10 + (if '0' <= s[|s| - 1] <= '9' then (s[|s| - 1] - '0') as int else 0)
  }
}

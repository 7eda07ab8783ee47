/** The Python built-ins the modelled code relies on, with their exact behaviour on the inputs it gives them. */
module Py {
  import opened Results

  // ---------------------------------------------------------------- range

  /** `range(start, stop, step)` for a positive step: the values start, start + step, ... below stop. */
  function Range(start: int, stop: int, step: int): (r: seq<int>)
    requires step > 0
    ensures forall t :: 0 <= t < |r| ==> r[t] == start + t * step
    ensures forall t :: 0 <= t < |r| ==> r[t] < stop
    ensures start + |r| * step >= stop
    decreases stop - start
  {
    if start >= stop then [] else [start] + Range(start + step, stop, step)
  }

  /** With step 4 from 0, the number of values is exactly the number of whole steps below stop. */
  lemma {:induction false} RangeLengthStep4(stop: int)
    requires stop >= 0 && stop % 4 == 0
    ensures |Range(0, stop, 4)| == stop / 4
  {
    var r := Range(0, stop, 4);
    if |r| > 0 {
      assert r[|r| - 1] == (|r| - 1) * 4 < stop;
    }
  }

  // ---------------------------------------------------------------- min

  /** `min(iterable)` where producing each item may raise, and each item is a float or `None`:
      an empty iterable raises ValueError, an item that raises stops the scan with its exception,
      and comparing `None` with anything raises TypeError. A single item is returned uncompared. */
  function MinOf(items: seq<Result<Option<real>>>): Result<Option<real>>
  {
    if |items| == 0 then Err(ValueError("min() arg is an empty sequence"))
    else match items[0]
      case Err(e) => Err(e)
      case Ok(first) => MinFrom(first, items[1..])
  }

  /** The scan of `min` after its first item: an item replaces the current best only when it is smaller. */
  function MinFrom(best: Option<real>, rest: seq<Result<Option<real>>>): Result<Option<real>>
    decreases |rest|
  {
    if |rest| == 0 then Ok(best)
    else match rest[0]
      case Err(e) => Err(e)
      case Ok(item) =>
        if item.None? || best.None? then Err(TypeError)
        else MinFrom(if item.value < best.value then item else best, rest[1..])
  }

  /** Every item is produced without raising and is a number. */
  ghost predicate AllNumbers(items: seq<Result<Option<real>>>)
  {
    forall k :: 0 <= k < |items| ==> items[k].Ok? && items[k].value.Some?
  }

  lemma {:induction false} MinFromAllNumbers(best: real, rest: seq<Result<Option<real>>>)
    requires AllNumbers(rest)
    ensures MinFrom(Some(best), rest).Ok? && MinFrom(Some(best), rest).value.Some?
    ensures var m := MinFrom(Some(best), rest).value.value;
            m <= best && (forall k :: 0 <= k < |rest| ==> m <= rest[k].value.value) &&
            (m == best || exists k :: 0 <= k < |rest| && rest[k] == Ok(Some(m)))
    decreases |rest|
  {
    if |rest| > 0 {
      var item := rest[0].value.value;
      var next := if item < best then item else best;
      assert AllNumbers(rest[1..]) by {
        forall k | 0 <= k < |rest[1..]| ensures rest[1..][k].Ok? && rest[1..][k].value.Some? {
          assert rest[1..][k] == rest[k + 1];
        }
      }
      MinFromAllNumbers(next, rest[1..]);
      var m := MinFrom(Some(next), rest[1..]).value.value;
      assert MinFrom(Some(best), rest) == MinFrom(Some(next), rest[1..]);
      forall k | 0 <= k < |rest| ensures m <= rest[k].value.value {
        if k > 0 { assert rest[k] == rest[1..][k - 1]; }
      }
      if m != next {
        var k :| 0 <= k < |rest[1..]| && rest[1..][k] == Ok(Some(m));
        assert rest[k + 1] == Ok(Some(m));
      }
    }
  }

  /** When every item is a number, `min` returns the least of them: a lower bound that some item attains. */
  lemma {:induction false} MinOfAllNumbers(items: seq<Result<Option<real>>>)
    requires |items| > 0 && AllNumbers(items)
    ensures MinOf(items).Ok? && MinOf(items).value.Some?
    ensures forall k :: 0 <= k < |items| ==> MinOf(items).value.value <= items[k].value.value
    ensures exists k :: 0 <= k < |items| && items[k] == MinOf(items)
  {
    var first := items[0].value.value;
    assert AllNumbers(items[1..]) by {
      forall k | 0 <= k < |items[1..]| ensures items[1..][k].Ok? && items[1..][k].value.Some? {
        assert items[1..][k] == items[k + 1];
      }
    }
    MinFromAllNumbers(first, items[1..]);
    var m := MinOf(items).value.value;
    forall k | 0 <= k < |items| ensures m <= items[k].value.value {
      if k > 0 { assert items[k] == items[1..][k - 1]; }
    }
    if m == first {
      assert items[0] == MinOf(items);
    } else {
      var k :| 0 <= k < |items[1..]| && items[1..][k] == Ok(Some(m));
      assert items[k + 1] == MinOf(items);
    }
  }

  lemma {:induction false} MinFromPropagatesErrors(best: Option<real>, rest: seq<Result<Option<real>>>, k: nat)
    requires k < |rest| && rest[k].Err?
    ensures MinFrom(best, rest).Err?
    decreases |rest|
  {
    if k > 0 && rest[0].Ok? && rest[0].value.Some? && best.Some? {
      var item := rest[0].value;
      assert rest[1..][k - 1] == rest[k];
      MinFromPropagatesErrors(if item.value < best.value then item else best, rest[1..], k - 1);
    }
  }

  /** An item whose production raises makes `min` raise, whatever its position. */
  lemma {:induction false} MinOfPropagatesErrors(items: seq<Result<Option<real>>>, k: nat)
    requires k < |items| && items[k].Err?
    ensures MinOf(items).Err?
  {
    if k > 0 && items[0].Ok? {
      assert items[1..][k - 1] == items[k];
      MinFromPropagatesErrors(items[0].value, items[1..], k - 1);
    }
  }

  lemma {:induction false} MinFromRejectsNone(best: Option<real>, rest: seq<Result<Option<real>>>, k: nat)
    requires forall i :: 0 <= i < |rest| ==> rest[i].Ok?
    requires k < |rest| && (rest[k].value.None? || best.None?)
    ensures MinFrom(best, rest) == Err(TypeError)
    decreases |rest|
  {
    if rest[0].value.Some? && best.Some? {
      var item := rest[0].value;
      assert k > 0;
      assert rest[1..][k - 1] == rest[k];
      MinFromRejectsNone(if item.value < best.value then item else best, rest[1..], k - 1);
    }
  }

  /** Among two or more items that are all produced, a single `None` makes `min` raise TypeError. */
  lemma {:induction false} MinOfRejectsNone(items: seq<Result<Option<real>>>, k: nat)
    requires |items| >= 2
    requires forall i :: 0 <= i < |items| ==> items[i].Ok?
    requires k < |items| && items[k].value.None?
    ensures MinOf(items) == Err(TypeError)
  {
    if k == 0 {
      MinFromRejectsNone(items[0].value, items[1..], 0);
    } else {
      assert items[1..][k - 1] == items[k];
      MinFromRejectsNone(items[0].value, items[1..], k - 1);
    }
  }

  // ---------------------------------------------------------------- str(int)

  predicate IsDigit(c: char) { '0' <= c <= '9' }

  /** The decimal digit character for d. */
  function DigitChar(d: nat): (c: char)
    requires d < 10
    ensures IsDigit(c) && c as int - '0' as int == d
  {
    (d + '0' as int) as char
  }

  /** The decimal digits of n, without leading zeros. */
  function NatStr(n: nat): (s: string)
    ensures |s| >= 1
    ensures forall k :: 0 <= k < |s| ==> IsDigit(s[k])
    ensures n > 0 ==> s[0] != '0'
  {
    if n < 10 then [DigitChar(n)] else NatStr(n / 10) + [DigitChar(n % 10)]
  }

  /** `str(i)` for a Python int: a minus sign before the digits of a negative number. */
  function Str(i: int): (s: string)
    ensures |s| >= 1
    ensures forall k :: 0 <= k < |s| ==> IsDigit(s[k]) || (k == 0 && s[k] == '-' && i < 0)
  {
    if i < 0 then "-" + NatStr(-i) else NatStr(i)
  }

  /** The text of an int starts with a minus sign if and only if the int is negative. */
  lemma {:induction false} StrSign(i: int)
    ensures Str(i)[0] == '-' <==> i < 0
  {
    if i < 0 {
      assert Str(i) == "-" + NatStr(-i);
    } else {
      assert IsDigit(Str(i)[0]);
    }
  }

  // ---------------------------------------------------------------- str.join, str.endswith

  /** `sep.join(parts)`. */
  function Join(parts: seq<string>, sep: string): string
  {
    if |parts| == 0 then ""
    else if |parts| == 1 then parts[0]
    else parts[0] + sep + Join(parts[1..], sep)
  }

  /** Joining four parts puts the separator between each neighbouring pair. */
  lemma {:induction false} JoinFour(parts: seq<string>, sep: string)
    requires |parts| == 4
    ensures Join(parts, sep) == parts[0] + sep + parts[1] + sep + parts[2] + sep + parts[3]
  {
    var tail := parts[1..];
    var last := tail[1..];
    assert Join(last, sep) == tail[1] + sep + tail[2];
    assert Join(tail, sep) == parts[1] + sep + (parts[2] + sep + parts[3]);
  }

  /** `s.endswith(suffix)`: case-sensitive. */
  predicate EndsWith(s: string, suffix: string)
  {
    |suffix| <= |s| && s[|s| - |suffix|..] == suffix
  }
}

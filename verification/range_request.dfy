/**
  The `Range` request header as the video route reads it: only the text before the first '-' matters, every
  character of it that is not an ASCII digit is dropped, and the remaining digits are read as a decimal number.
 */
module RangeRequest {
  import opened Decimal

  /** The text before the first `sep`, or all of `s` when `sep` does not occur; `s.split(sep)[0]` in JavaScript. */
  function Before(s: string, sep: char): (p: string)
    ensures p <= s
    ensures sep !in p
    ensures |p| < |s| ==> s[|p|] == sep
    decreases |s|
  {
    if s == [] || s[0] == sep then [] else [s[0]] + Before(s[1..], sep)
  }

  /** Without the separator the whole text is kept. */
  lemma {:induction false} BeforeAbsent(s: string, sep: char)
    requires sep !in s
    ensures Before(s, sep) == s
    decreases |s|
  {
    if s != [] {
      assert s[0] in s;
      BeforeAbsent(s[1..], sep);
      assert s == [s[0]] + s[1..];
    }
  }

  /** Splitting at the first separator gives back exactly the text in front of it. */
  lemma {:induction false} BeforeFirst(a: string, sep: char, b: string)
    requires sep !in a
    ensures Before(a + [sep] + b, sep) == a
    decreases |a|
  {
    var s := a + [sep] + b;
    if a != [] {
      assert a[0] in a;
      assert s[0] == a[0];
      assert s[1..] == a[1..] + [sep] + b;
      BeforeFirst(a[1..], sep, b);
      assert a == [a[0]] + a[1..];
    } else {
      assert s[0] == sep;
    }
  }

  /** The digits of `s` in their order, every other character dropped; `s.replace(/\D/g, "")` in JavaScript. */
  function KeepDigits(s: string): (d: string)
    ensures AllDigits(d)
    ensures |d| <= |s|
    ensures AllDigits(s) ==> d == s
    ensures (forall i :: 0 <= i < |s| ==> !IsDigit(s[i])) ==> d == []
    decreases |s|
  {
    if s == [] then [] else (if IsDigit(s[0]) then [s[0]] else []) + KeepDigits(s[1..])
  }

  /** Dropping non-digits works piecewise: it commutes with concatenation. */
  lemma {:induction false} KeepDigitsAppend(a: string, b: string)
    ensures KeepDigits(a + b) == KeepDigits(a) + KeepDigits(b)
    decreases |a|
  {
    if a != [] {
      assert (a + b)[0] == a[0];
      assert (a + b)[1..] == a[1..] + b;
      KeepDigitsAppend(a[1..], b);
    } else {
      assert a + b == b;
    }
  }

  /**
    The start offset the route reads from a `Range` header: the decimal value of the digits before the first '-',
    0 when there are none. It never has more digits than there are characters in front of the '-'.
   */
  function ParseStart(header: string): (start: nat)
    ensures start < Pow10(|Before(header, '-')|)
  {
    var digits := KeepDigits(Before(header, '-'));
    Pow10Monotone(|digits|, |Before(header, '-')|);
    Value(digits)
  }

  /** Everything after the first '-', a client's end bound included, has no effect on the start. */
  lemma ParseStartIgnoresEnd(front: string, tail: string)
    requires '-' !in front
    ensures ParseStart(front + "-" + tail) == ParseStart(front)
  {
    assert front + "-" + tail == front + ['-'] + tail;
    BeforeFirst(front, '-', tail);
    BeforeAbsent(front, '-');
  }

  /** With no digit in front of the first '-' (as in `bytes=-500`) the start is 0. */
  lemma ParseStartWithoutDigits(header: string)
    requires forall i :: 0 <= i < |Before(header, '-')| ==> !IsDigit(Before(header, '-')[i])
    ensures ParseStart(header) == 0
  {
  }

  /** The header a client sends to ask for the bytes from `start` on: `bytes=<start>-`. */
  function RequestHeader(start: nat): string {
    "bytes=" + Show(start) + "-"
  }

  /** A digit string never contains the '-' that ends the start bound. */
  lemma NoDashInDigits(prefix: string, digits: string)
    requires '-' !in prefix && AllDigits(digits)
    ensures '-' !in prefix + digits
  {
    var s := prefix + digits;
    forall i | 0 <= i < |s|
      ensures s[i] != '-'
    {
      if i >= |prefix| {
        assert s[i] == digits[i - |prefix|];
      } else {
        assert s[i] == prefix[i];
      }
    }
  }

  /** The unit prefix `bytes=` contributes no digit. */
  lemma UnitHasNoDigits()
    ensures KeepDigits("bytes=") == []
  {
    var u := "bytes=";
    assert forall i :: 0 <= i < |u| ==> !IsDigit(u[i]);
  }

  /** The route reads back the start a client wrote, whatever end bound the client appended. */
  lemma ParseStartOfRequest(start: nat, end: string)
    ensures ParseStart(RequestHeader(start) + end) == start
  {
    var digits := Show(start);
    var front := "bytes=" + digits;
    var header := RequestHeader(start) + end;
    NoDashInDigits("bytes=", digits);
    assert header == front + ['-'] + end;
    BeforeFirst(front, '-', end);
    assert Before(header, '-') == front;
    KeepDigitsAppend("bytes=", digits);
    UnitHasNoDigits();
    assert KeepDigits(front) == digits;
    ValueOfShow(start);
  }

  /** Renderings of the start offsets the examples use, one digit at a time. */
  lemma ShowExampleStarts()
    ensures Show(2400000) == "2400000" && Show(3000000) == "3000000"
  {
    assert Show(24) == "24" && Show(240) == "240" && Show(2400) == "2400";
    assert Show(24000) == "24000" && Show(240000) == "240000";
    assert Show(30) == "30" && Show(300) == "300" && Show(3000) == "3000";
    assert Show(30000) == "30000" && Show(300000) == "300000";
  }

  /** A client end bound is dropped: `bytes=2400000-999` starts at 2400000. */
  lemma ExampleEndBoundIgnored()
    ensures ParseStart("bytes=2400000-999") == 2400000
  {
    ShowExampleStarts();
    assert "bytes=2400000-999" == RequestHeader(2400000) + "999";
    ParseStartOfRequest(2400000, "999");
  }

  /** A suffix range `bytes=-500` has no digit before its '-' and starts at 0. */
  lemma ExampleSuffixRange()
    ensures ParseStart("bytes=-500") == 0
  {
    var front := "bytes=";
    assert "bytes=-500" == front + ['-'] + "500";
    BeforeFirst(front, '-', "500");
    UnitHasNoDigits();
  }
}

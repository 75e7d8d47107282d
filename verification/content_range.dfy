/**
  The `Content-Range` response header of a 206 reply, `bytes <start>-<end>/<size>`, and a reader for it: the
  reader is what a client uses to learn which bytes it was sent.
 */
module ContentRangeHeader {
  import opened Wrappers
  import opened Decimal
  import opened RangeRequest

  /** The numbers a `Content-Range` value carries; `end` is whatever the route computed, possibly below `start`. */
  datatype ContentRange = ContentRange(start: nat, end: int, size: nat)

  /** The header text, as the template literal `bytes ${start}-${end}/${size}` renders it. */
  function Format(cr: ContentRange): (s: string)
    ensures |s| > 6 && s[..6] == "bytes "
  {
    "bytes " + Show(cr.start) + "-" + ShowInt(cr.end) + "/" + Show(cr.size)
  }

  /** Reads a `Content-Range` value: a start, a '-', a possibly negative end, a '/' and the total size. */
  function Parse(s: string): (r: Option<ContentRange>)
    ensures r.Some? ==> |s| > 6 && s[..6] == "bytes "
  {
    if |s| < 6 || s[..6] != "bytes " then None
    else
      var first := Before(s[6..], '-');
      if |first| == |s| - 6 then None
      else
        var rest := s[6 + |first| + 1..];
        var last := Before(rest, '/');
        if |last| == |rest| then None
        else
          var total := rest[|last| + 1..];
          match (ParseNat(first), ParseInt(last), ParseNat(total))
          case (Some(a), Some(b), Some(c)) => Some(ContentRange(a, b, c))
          case _ => None
  }

  lemma NoSeparatorInDigits(digits: string, sep: char)
    requires AllDigits(digits) && !IsDigit(sep)
    ensures sep !in digits
  {
  }

  /** A rendered integer never contains the '/' in front of the size. */
  lemma NoSlashInShowInt(i: int)
    ensures '/' !in ShowInt(i)
  {
    var s := ShowInt(i);
    NoSeparatorInDigits(s[1..], '/');
    assert s == [s[0]] + s[1..];
  }

  /** The text after `bytes ` splits at its first '-' into the start's digits and the rest. */
  lemma SplitAtDash(a: string, rest: string)
    requires AllDigits(a)
    ensures
      var t := a + "-" + rest;
      Before(t, '-') == a && |a| != |t| && t[|a| + 1..] == rest
  {
    NoSeparatorInDigits(a, '-');
    BeforeFirst(a, '-', rest);
  }

  /** The rest splits at its first '/' into the rendered end and the size's digits. */
  lemma SplitAtSlash(end: int, c: string)
    ensures
      var b, rest := ShowInt(end), ShowInt(end) + "/" + c;
      Before(rest, '/') == b && |b| != |rest| && rest[|b| + 1..] == c
  {
    NoSlashInShowInt(end);
    BeforeFirst(ShowInt(end), '/', c);
  }

  /** Reading a formatted header gives back the very numbers that were formatted. */
  lemma ParseFormat(cr: ContentRange)
    ensures Parse(Format(cr)) == Some(cr)
  {
    var a, b, c := Show(cr.start), ShowInt(cr.end), Show(cr.size);
    var s := Format(cr);
    var rest := b + "/" + c;
    assert s[..6] == "bytes ";
    assert s[6..] == a + "-" + rest;
    SplitAtDash(a, rest);
    SplitAtSlash(cr.end, c);
    assert s[6 + |a| + 1..] == rest;
    ParseNatOfShow(cr.start);
    ParseIntOfShowInt(cr.end);
    ParseNatOfShow(cr.size);
  }
}

/**
 * format_duration (src/6d6/6d6.c:235-269): a number of seconds as "1d 2h 3m 4s", fields that
 * are zero left out, "0s" for a duration that is not positive.
 */
module Duration {
  import opened Wrappers
  import opened Bytes
  import opened Text

  const Day := 86400
  const Hour := 3600
  const Minute := 60

  /** Days, hours, minutes and seconds of a duration. */
  datatype Fields = Fields(days: nat, hours: nat, minutes: nat, seconds: nat)

  /** The decomposition format_duration computes with `/` and `%=`. */
  function Split(d: nat): (f: Fields)
    ensures f.hours < 24 && f.minutes < 60 && f.seconds < 60
    ensures f.days * Day + f.hours * Hour + f.minutes * Minute + f.seconds == d
  {
    SplitSums(d);
    Fields(d / Day, d % Day / Hour, d % Hour / Minute, d % Minute)
  }

  lemma SplitSums(d: nat)
    ensures d % Day / Hour < 24 && d % Hour / Minute < 60
    ensures d / Day * Day + d % Day / Hour * Hour + d % Hour / Minute * Minute + d % Minute == d
  {
    var q, r := d / Day, d % Day;
    var h, r' := r / Hour, r % Hour;
    var m, s := r' / Minute, r' % Minute;
    assert d == q * Day + h * Hour + m * Minute + s;
    ModDivides(d, q, r, Hour, 24);
    ModDivides(d, q * 24 + h, r', Minute, 60);
    ModDivides(d, (q * 24 + h) * 60 + m, s, 1, 60);
  }

  /** Dividing q * (b * k) + r, with 0 <= r < b * k, by b. */
  lemma ModDivides(d: int, q: int, r: int, b: nat, k: nat)
    requires b > 0 && 0 <= r < b * k && d == q * (b * k) + r
    ensures d % b == r % b && d / b == q * k + r / b
  {
    var rq, rr := r / b, r % b;
    assert r == rq * b + rr;
    assert d == b * (q * k + rq) + rr by {
      assert q * (b * k) == b * (q * k);
      assert b * (q * k) + b * rq == b * (q * k + rq);
    }
    ModOfSum(d, b, q * k + rq, rr);
  }

  /** One field as "%ld<unit>", or nothing when it is zero. */
  function Part(v: nat, unit: char): seq<string>
  {
    if v == 0 then [] else [Decimal(v) + [unit]]
  }

  function Parts(f: Fields): seq<string>
  {
    Part(f.days, 'd') + Part(f.hours, 'h') + Part(f.minutes, 'm') + Part(f.seconds, 's')
  }

  /** The parts separated by single spaces (the `n ? " " : ""` of each snprintf). */
  function Join(parts: seq<string>): string
  {
    if parts == [] then "" else if |parts| == 1 then parts[0] else parts[0] + " " + Join(parts[1..])
  }

  /** The text format_duration writes. */
  function DurationText(d: int): string
  {
    if d <= 0 then "0s" else Join(Parts(Split(d)))
  }

  lemma {:induction false} JoinSnoc(parts: seq<string>, p: string)
    ensures Join(parts + [p]) == Join(parts) + (if parts == [] then "" else " ") + p
    decreases |parts|
  {
    if parts == [] {
      assert parts + [p] == [p];
    } else if |parts| == 1 {
      assert (parts + [p])[1..] == [p];
    } else {
      assert (parts + [p])[1..] == parts[1..] + [p];
      JoinSnoc(parts[1..], p);
    }
  }

  /** Appends one field the way format_duration does: a space first unless nothing was written. */
  method AppendPart(out: string, ghost parts: seq<string>, v: nat, unit: char) returns (out': string, ghost parts': seq<string>)
    requires out == Join(parts) && (out == [] <==> parts == [])
    ensures parts' == parts + Part(v, unit) && out' == Join(parts') && (out' == [] <==> parts' == [])
  {
    if v != 0 {
      var sep := if |out| > 0 then " " else "";
      out' := out + sep + Decimal(v) + [unit];
      parts' := parts + [Decimal(v) + [unit]];
      JoinSnoc(parts, Decimal(v) + [unit]);
      assert out + sep + Decimal(v) + [unit] == Join(parts) + sep + (Decimal(v) + [unit]);
    } else {
      out', parts' := out, parts;
      assert parts + [] == parts;
    }
  }

  /** format_duration, writing into a buffer large enough for the result (the caller's has 128 bytes). */
  method FormatDuration(d: int) returns (out: string, n: nat)
    ensures out == DurationText(d) && n == |out|
  {
    if d <= 0 {
      return "0s", 2;
    }
    ghost var parts: seq<string> := [];
    out := [];
    var rest := d;
    var t := rest / Day;
    out, parts := AppendPart(out, parts, t, 'd');
    rest := rest % Day;
    t := rest / Hour;
    out, parts := AppendPart(out, parts, t, 'h');
    ModOfMod(d, Hour, 24);
    rest := rest % Hour;
    assert rest == d % Hour;
    t := rest / Minute;
    out, parts := AppendPart(out, parts, t, 'm');
    ModOfMod(d, Minute, 60);
    rest := rest % Minute;
    assert rest == d % Minute;
    out, parts := AppendPart(out, parts, rest, 's');
    assert parts == [] + Part(d / Day, 'd') + Part(d % Day / Hour, 'h') + Part(d % Hour / Minute, 'm')
                    + Part(d % Minute, 's');
    assert Split(d) == Fields(d / Day, d % Day / Hour, d % Hour / Minute, d % Minute);
    assert parts == Parts(Split(d));
    assert out == DurationText(d);
    n := |out|;
  }

  lemma ModOfMod(d: nat, b: nat, k: nat)
    requires b > 0 && k > 0
    ensures d % (b * k) % b == d % b
  {
    var q, r := d / (b * k), d % (b * k);
    ModDivides(d, q, r, b, k);
  }

  // ----- reading the text back -----

  function UnitSeconds(u: char): Option<nat>
  {
    match u
    case 'd' => Some(Day)
    case 'h' => Some(Hour)
    case 'm' => Some(Minute)
    case 's' => Some(1)
    case _ => None
  }

  /** The seconds one "<digits><unit>" token stands for. */
  function TokenValue(tok: string): Option<nat>
  {
    if |tok| < 2 || !AllDigits(tok[..|tok| - 1]) then None
    else
      var unit :- UnitSeconds(tok[|tok| - 1]);
      Some(DecimalValue(tok[..|tok| - 1]) * unit)
  }

  /** The text split at every space. */
  function Tokens(s: string): (r: seq<string>)
    ensures |r| >= 1
  {
    if s == [] then [""]
    else
      var rest := Tokens(s[1..]);
      if s[0] == ' ' then [""] + rest else [[s[0]] + rest[0]] + rest[1..]
  }

  function SumTokens(toks: seq<string>): Option<nat>
  {
    if toks == [] then Some(0)
    else
      var v :- TokenValue(toks[0]);
      var w :- SumTokens(toks[1..]);
      Some(v + w)
  }

  /** The number of seconds a duration text denotes. */
  function DurationValue(s: string): Option<nat>
  {
    SumTokens(Tokens(s))
  }

  predicate NoSpace(s: string)
  {
    forall i :: 0 <= i < |s| ==> s[i] != ' '
  }

  lemma {:induction false} TokensOfWord(a: string, b: string)
    requires NoSpace(a)
    ensures Tokens(a + b) == [a + Tokens(b)[0]] + Tokens(b)[1..]
    decreases |a|
  {
    if a != [] {
      assert (a + b)[1..] == a[1..] + b;
      TokensOfWord(a[1..], b);
      assert [a[0]] + (a[1..] + Tokens(b)[0]) == a + Tokens(b)[0];
    } else {
      assert a + b == b;
      assert a + Tokens(b)[0] == Tokens(b)[0];
      assert Tokens(b) == [Tokens(b)[0]] + Tokens(b)[1..];
    }
  }

  lemma TokensOfSpace(a: string, b: string)
    requires NoSpace(a)
    ensures Tokens(a + " " + b) == [a] + Tokens(b)
  {
    assert a + " " + b == a + (" " + b);
    TokensOfWord(a, " " + b);
    assert (" " + b)[1..] == b;
    assert Tokens(" " + b) == [""] + Tokens(b);
    assert a + "" == a;
  }

  /** Splitting a joined list of space-free, non-empty parts gives the parts back. */
  lemma {:induction false} TokensOfJoin(parts: seq<string>)
    requires parts != [] && AllNoSpace(parts)
    ensures Tokens(Join(parts)) == parts
    decreases |parts|
  {
    if |parts| == 1 {
      TokensOfWord(parts[0], "");
      assert parts[0] + "" == parts[0];
    } else {
      TokensOfSpace(parts[0], Join(parts[1..]));
      TokensOfJoin(parts[1..]);
    }
  }

  lemma PartValue(v: nat, unit: char)
    requires UnitSeconds(unit).Some?
    ensures AllNoSpace(Part(v, unit)) && (v > 0 ==> |Part(v, unit)| == 1 && |Part(v, unit)[0]| >= 2)
    ensures SumTokens(Part(v, unit)) == Some(v * UnitSeconds(unit).value)
  {
    if v != 0 {
      var tok := Decimal(v) + [unit];
      assert tok[..|tok| - 1] == Decimal(v);
      DecimalRoundTrip(v);
      assert SumTokens(Part(v, unit)[1..]) == Some(0);
    }
  }

  lemma {:induction false} SumTokensAppend(a: seq<string>, b: seq<string>, x: nat, y: nat)
    requires SumTokens(a) == Some(x) && SumTokens(b) == Some(y)
    ensures SumTokens(a + b) == Some(x + y)
    decreases |a|
  {
    if a == [] {
      assert a + b == b;
    } else {
      var v := TokenValue(a[0]).value;
      assert (a + b)[1..] == a[1..] + b;
      SumTokensAppend(a[1..], b, x - v, y);
    }
  }

  predicate AllNoSpace(parts: seq<string>)
  {
    forall i :: 0 <= i < |parts| ==> NoSpace(parts[i])
  }

  lemma AllNoSpaceAppend(a: seq<string>, b: seq<string>)
    requires AllNoSpace(a) && AllNoSpace(b)
    ensures AllNoSpace(a + b)
  {
    assert forall i :: 0 <= i < |a + b| ==> (a + b)[i] == if i < |a| then a[i] else b[i - |a|];
  }

  /** The parts of a non-zero duration: at least one, none with a space, and what they add up to. */
  lemma PartsValue(f: Fields)
    requires f.days + f.hours + f.minutes + f.seconds > 0
    ensures Parts(f) != [] && AllNoSpace(Parts(f)) && |Parts(f)[0]| >= 2
    ensures SumTokens(Parts(f)) == Some(f.days * Day + f.hours * Hour + f.minutes * Minute + f.seconds)
  {
    var a, b, c, e := Part(f.days, 'd'), Part(f.hours, 'h'), Part(f.minutes, 'm'), Part(f.seconds, 's');
    PartValue(f.days, 'd');
    PartValue(f.hours, 'h');
    PartValue(f.minutes, 'm');
    PartValue(f.seconds, 's');
    PartsSum(a, b, c, e, f.days * Day, f.hours * Hour, f.minutes * Minute, f.seconds);
    AllNoSpaceAppend(a, b);
    AllNoSpaceAppend(a + b, c);
    AllNoSpaceAppend(a + b + c, e);
  }

  lemma PartsSum(a: seq<string>, b: seq<string>, c: seq<string>, e: seq<string>, x: nat, y: nat, z: nat, w: nat)
    requires SumTokens(a) == Some(x) && SumTokens(b) == Some(y) && SumTokens(c) == Some(z) && SumTokens(e) == Some(w)
    ensures SumTokens(a + b + c + e) == Some(x + y + z + w)
  {
    SumTokensAppend(a, b, x, y);
    SumTokensAppend(a + b, c, x + y, z);
    SumTokensAppend(a + b + c, e, x + y + z, w);
  }

  /** The text format_duration writes denotes the duration (zero when it is not positive). */
  lemma DurationRoundTrip(d: int)
    ensures DurationValue(DurationText(d)) == Some(if d <= 0 then 0 else d)
  {
    if d <= 0 {
      TokensOfWord("0s", "");
      assert "0s" + "" == "0s";
      assert "0s"[..1] == "0";
      assert DecimalValue("0") == 0;
    } else {
      var f := Split(d);
      PartsValue(f);
      TokensOfJoin(Parts(f));
    }
  }

  /** The text is never empty: a positive duration has a non-zero field. */
  lemma DurationNonEmpty(d: int)
    ensures |DurationText(d)| >= 2
  {
    if d > 0 {
      PartsValue(Split(d));
    }
  }

  /** For any 64-bit `long`, the text fits the 128-byte buffer kum_6d6_show_info passes. */
  lemma DurationFits(d: int)
    requires d < 0x8000_0000_0000_0000
    ensures |DurationText(d)| < 128
  {
    if d > 0 {
      var f := Split(d);
      DaysBound(f, d);
      Pow10Values();
      PartsShort(f);
      var parts := Parts(f);
      JoinLength(parts, 16);
      assert |Join(parts)| <= 68;
      assert DurationText(d) == Join(parts);
    }
  }

  /** A 64-bit duration has fewer than 10^15 days. */
  lemma DaysBound(f: Fields, d: int)
    requires d < 0x8000_0000_0000_0000
    requires f.days * Day + f.hours * Hour + f.minutes * Minute + f.seconds == d
    ensures f.days < 1_000_000_000_000_000
  {
  }

  lemma Pow10Values()
    ensures Pow10(2) == 100 && Pow10(15) == 1_000_000_000_000_000
  {
  }

  /** Every part is short when the fields have few digits. */
  predicate Short(parts: seq<string>, k: nat)
  {
    forall i :: 0 <= i < |parts| ==> |parts[i]| <= k
  }

  lemma ShortAppend(a: seq<string>, b: seq<string>, k: nat)
    requires Short(a, k) && Short(b, k)
    ensures Short(a + b, k)
  {
    forall i | 0 <= i < |a + b|
      ensures |(a + b)[i]| <= k
    {
      if i >= |a| {
        assert (a + b)[i] == b[i - |a|];
      }
    }
  }

  lemma PartShort(v: nat, unit: char, k: nat)
    requires 1 <= k && v < Pow10(k)
    ensures |Part(v, unit)| <= 1 && Short(Part(v, unit), k + 1)
  {
    if v != 0 {
      DecimalLength(v, k);
    }
  }

  lemma PartsShort(f: Fields)
    requires f.days < Pow10(15) && f.hours < Pow10(2) && f.minutes < Pow10(2) && f.seconds < Pow10(2)
    ensures |Parts(f)| <= 4 && Short(Parts(f), 16)
  {
    var a, b, c, e := Part(f.days, 'd'), Part(f.hours, 'h'), Part(f.minutes, 'm'), Part(f.seconds, 's');
    PartShort(f.days, 'd', 15);
    PartShort(f.hours, 'h', 2);
    PartShort(f.minutes, 'm', 2);
    PartShort(f.seconds, 's', 2);
    ShortWeaker(b, 3, 16);
    ShortWeaker(c, 3, 16);
    ShortWeaker(e, 3, 16);
    ShortAppend(a, b, 16);
    ShortAppend(a + b, c, 16);
    ShortAppend(a + b + c, e, 16);
  }

  lemma ShortWeaker(parts: seq<string>, k: nat, k': nat)
    requires Short(parts, k) && k <= k'
    ensures Short(parts, k')
  {
  }

  lemma {:induction false} JoinLength(parts: seq<string>, k: nat)
    requires forall i :: 0 <= i < |parts| ==> |parts[i]| <= k
    ensures |Join(parts)| <= |parts| * (k + 1)
    decreases |parts|
  {
    if |parts| > 1 {
      JoinLength(parts[1..], k);
    }
  }
}

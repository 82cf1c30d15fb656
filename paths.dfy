/**
 * wmseed__filename (src/wmseed.h:90-146), the expansion of an output file template, and
 * wmseed__dirname (src/wmseed.h:148-166), the directory part of a path.
 */
module Paths {
  import opened Wrappers
  import opened Text
  import opened Clock

  /** The station, location, channel and network codes of one channel. */
  datatype Names = Names(station: string, location: string, channel: string, network: string)

  /** What one `%`-code expands to, or None for a code the switch has no case for. */
  function Code(c: char, d: Date, yday: int, names: Names): Option<string>
  {
    match c
    case '%' => Some("%")
    case 'y' => Some(PadDecimal(d.year, 4))
    case 'm' => Some(PadDecimal(d.month, 2))
    case 'd' => Some(PadDecimal(d.day, 2))
    case 'h' => Some(PadDecimal(d.hour, 2))
    case 'i' => Some(PadDecimal(d.min, 2))
    case 's' => Some(PadDecimal(d.sec, 2))
    case 'j' => Some(PadDecimal(yday, 3))
    case 'S' => Some(names.station)
    case 'L' => Some(names.location)
    case 'C' => Some(names.channel)
    case 'N' => Some(names.network)
    case _ => None
  }

  /** `acc` in front of the expansion of the rest, if there is one. */
  function Prefix(acc: string, r: Option<string>): Option<string>
  {
    if r.Some? then Some(acc + r.value) else None
  }

  /** The expansion of a template suffix: codes replaced, other characters copied. */
  function ExpandFrom(t: string, d: Date, yday: int, names: Names): Option<string>
  {
    if t == [] then Some([])
    else if t[0] != '%' then Prefix([t[0]], ExpandFrom(t[1..], d, yday, names))
    else if |t| == 1 then None
    else
      var code :- Code(t[1], d, yday, names);
      Prefix(code, ExpandFrom(t[2..], d, yday, names))
  }

  /** The file name for the template; None where the C returns a null pointer (an empty template never allocates). */
  function Expand(t: string, d: Date, yday: int, names: Names): Option<string>
  {
    if t == [] then None else ExpandFrom(t, d, yday, names)
  }

  lemma PrefixEmpty(r: Option<string>)
    ensures Prefix([], r) == r
  {
    if r.Some? {
      assert [] + r.value == r.value;
    }
  }

  lemma PrefixPrefix(a: string, b: string, r: Option<string>)
    ensures Prefix(a, Prefix(b, r)) == Prefix(a + b, r)
  {
    if r.Some? {
      assert a + (b + r.value) == (a + b) + r.value;
    }
  }

  function Acc(s: Option<string>): string
  {
    if s.Some? then s.value else []
  }

  /** wmseed__filename: the loop over the template with wmseed__strappend; tai_date supplies d and yday. */
  method Filename(tmpl: string, d: Date, yday: int, names: Names) returns (r: Option<string>)
    ensures r == Expand(tmpl, d, yday, names)
  {
    var s: Option<string> := None;
    var i := 0;
    PrefixEmpty(ExpandFrom(tmpl, d, yday, names));
    while i < |tmpl|
      invariant i <= |tmpl|
      invariant s.None? <==> i == 0
      invariant ExpandFrom(tmpl, d, yday, names) == Prefix(Acc(s), ExpandFrom(tmpl[i..], d, yday, names))
    {
      var rest := tmpl[i..];
      if tmpl[i] == '%' {
        if i + 1 == |tmpl| {
          return None;
        }
        var code := Code(tmpl[i + 1], d, yday, names);
        if code.None? {
          return None;
        }
        assert rest[2..] == tmpl[i + 2..];
        PrefixPrefix(Acc(s), code.value, ExpandFrom(tmpl[i + 2..], d, yday, names));
        s := Some(Acc(s) + code.value);
        i := i + 2;
      } else {
        assert rest[1..] == tmpl[i + 1..];
        PrefixPrefix(Acc(s), [tmpl[i]], ExpandFrom(tmpl[i + 1..], d, yday, names));
        s := Some(Acc(s) + [tmpl[i]]);
        i := i + 1;
      }
    }
    assert tmpl[i..] == [];
    assert Acc(s) + [] == Acc(s);
    return s;
  }

  // ----- what the expansion promises -----

  /** Every `%` doubled: the template that names the file `s` literally. */
  function Escape(s: string): string
  {
    if s == [] then [] else (if s[0] == '%' then "%%" else [s[0]]) + Escape(s[1..])
  }

  /** A template with every `%` escaped expands to the text itself, whatever the date and names. */
  lemma {:induction false} EscapeExpands(s: string, d: Date, yday: int, names: Names)
    ensures ExpandFrom(Escape(s), d, yday, names) == Some(s)
  {
    if s != [] {
      var e := Escape(s);
      EscapeExpands(s[1..], d, yday, names);
      if s[0] == '%' {
        assert e[2..] == Escape(s[1..]);
      } else {
        assert e[1..] == Escape(s[1..]);
      }
      assert [s[0]] + s[1..] == s;
    }
  }

  predicate NoPercent(s: string)
  {
    forall i :: 0 <= i < |s| ==> s[i] != '%'
  }

  /** Text without `%` is copied through unchanged and the rest expanded after it. */
  lemma {:induction false} LiteralExpands(a: string, b: string, d: Date, yday: int, names: Names)
    requires NoPercent(a)
    ensures ExpandFrom(a + b, d, yday, names) == Prefix(a, ExpandFrom(b, d, yday, names))
    decreases |a|
  {
    if a == [] {
      assert a + b == b;
      PrefixEmpty(ExpandFrom(b, d, yday, names));
    } else {
      assert (a + b)[1..] == a[1..] + b;
      LiteralExpands(a[1..], b, d, yday, names);
      PrefixPrefix([a[0]], a[1..], ExpandFrom(b, d, yday, names));
      assert [a[0]] + a[1..] == a;
    }
  }

  /** A code outside the table, or a `%` that ends the template, makes the whole expansion fail. */
  lemma BadCodeFails(a: string, c: char, b: string, d: Date, yday: int, names: Names)
    requires NoPercent(a) && Code(c, d, yday, names).None?
    ensures Expand(a + ['%', c] + b, d, yday, names).None?
    ensures Expand(a + "%", d, yday, names).None?
  {
    LiteralExpands(a, ['%', c] + b, d, yday, names);
    assert a + ['%', c] + b == a + (['%', c] + b);
    LiteralExpands(a, "%", d, yday, names);
  }

  /** A date field printed with its width holds exactly that many digits when the value fits. */
  lemma DateFieldWidth(v: int, width: nat)
    requires 1 <= width && 0 <= v < Pow10(width)
    ensures |PadDecimal(v, width)| == width && AllDigits(PadDecimal(v, width))
    ensures DecimalValue(PadDecimal(v, width)) == v
  {
    DecimalLength(v, width);
    PadDecimalValue(v, width);
  }

  /** Literal text, then a known code, then the rest: the text, the code's value, then the rest's expansion. */
  lemma CodeThen(lit: string, c: char, rest: string, d: Date, yday: int, names: Names)
    requires NoPercent(lit) && Code(c, d, yday, names).Some?
    ensures ExpandFrom(lit + ['%', c] + rest, d, yday, names)
         == Prefix(lit + Code(c, d, yday, names).value, ExpandFrom(rest, d, yday, names))
  {
    var t := ['%', c] + rest;
    assert t[2..] == rest;
    LiteralExpands(lit, t, d, yday, names);
    assert lit + ['%', c] + rest == lit + t;
    PrefixPrefix(lit, Code(c, d, yday, names).value, ExpandFrom(rest, d, yday, names));
  }

  /** The codes the switch of wmseed__filename knows. */
  predicate KnownCode(c: char)
  {
    c in "%ymdhisjSLCN"
  }

  /** Every `%` of the template starts a known two-character code. */
  predicate CodesKnown(t: string)
  {
    if t == [] then true
    else if t[0] != '%' then CodesKnown(t[1..])
    else |t| >= 2 && KnownCode(t[1]) && CodesKnown(t[2..])
  }

  /** A template the writer can use: non-empty and with only known codes. */
  predicate WellFormedTemplate(t: string)
  {
    t != [] && CodesKnown(t)
  }

  /** The expansion fails exactly on an unknown code or a trailing `%`, whatever the date and names. */
  lemma {:induction false} ExpandSucceeds(t: string, d: Date, yday: int, names: Names)
    ensures ExpandFrom(t, d, yday, names).Some? <==> CodesKnown(t)
  {
    if t != [] {
      if t[0] != '%' {
        ExpandSucceeds(t[1..], d, yday, names);
      } else if |t| >= 2 {
        ExpandSucceeds(t[2..], d, yday, names);
        assert Code(t[1], d, yday, names).Some? <==> KnownCode(t[1]);
      }
    }
  }

  /** The name a well-formed template expands to. */
  function FileName(t: string, d: Date, yday: int, names: Names): (s: string)
    requires WellFormedTemplate(t)
    ensures Expand(t, d, yday, names) == Some(s)
  {
    ExpandSucceeds(t, d, yday, names);
    Expand(t, d, yday, names).value
  }

  // ----- wmseed__dirname -----

  /** The index of the last '/', if any. */
  function LastSlash(path: string): (x: Option<nat>)
    ensures x.Some? ==> x.value < |path| && path[x.value] == '/'
    ensures x.Some? ==> forall i :: x.value < i < |path| ==> path[i] != '/'
    ensures x.None? ==> forall i :: 0 <= i < |path| ==> path[i] != '/'
  {
    if path == [] then None
    else if path[|path| - 1] == '/' then Some(|path| - 1)
    else LastSlash(path[..|path| - 1])
  }

  /** The scan of wmseed__dirname: x starts at (size_t) -1 and takes every index of a '/'. */
  method FindLastSlash(path: string) returns (x: Option<nat>)
    ensures x == LastSlash(path)
  {
    x := None;
    var l := 0;
    while l < |path|
      invariant l <= |path|
      invariant x == LastSlash(path[..l])
    {
      assert path[..l + 1][..l] == path[..l];
      if path[l] == '/' {
        x := Some(l);
      }
      l := l + 1;
    }
    assert path[..l] == path;
  }

  /**
   * wmseed__dirname as written. With no '/', x stays SIZE_MAX, passes `x > 1`, and the copy of
   * SIZE_MAX bytes into a zero-byte allocation has no result (None). A '/' at index 1 falls
   * into the else branch and gives "." instead of the one-character directory.
   */
  function DirnameAsWritten(path: string): Option<string>
  {
    match LastSlash(path)
    case None => None
    case Some(x) => if x > 1 then Some(path[..x]) else if x != 0 then Some(".") else Some("/")
  }

  /** The directory part as intended: "." without a '/', "/" for a top-level name, else the text before the last '/'. */
  function Dirname(path: string): (r: string)
    ensures |r| >= 1
  {
    match LastSlash(path)
    case None => "."
    case Some(x) => if x == 0 then "/" else path[..x]
  }

  /** wmseed__dirname with the intended test. */
  method DirnameOf(path: string) returns (r: string)
    ensures r == Dirname(path)
  {
    var x := FindLastSlash(path);
    if x.None? {
      r := ".";
    } else if x.value == 0 {
      r := "/";
    } else {
      r := path[..x.value];
    }
  }

  predicate NoSlash(s: string)
  {
    forall i :: 0 <= i < |s| ==> s[i] != '/'
  }

  /** Joining a directory and a file name with '/' and taking the directory part gives the directory back. */
  lemma DirnameOfJoin(dir: string, file: string)
    requires dir != [] && NoSlash(file)
    ensures Dirname(dir + "/" + file) == dir
  {
    var p := dir + "/" + file;
    assert p[|dir|] == '/';
    assert forall i :: |dir| < i < |p| ==> p[i] == file[i - |dir| - 1];
    LastSlashIs(p, |dir|);
    assert p[..|dir|] == dir;
  }

  /** Dirname of a name without '/' is "." and of "/name" is "/". */
  lemma DirnameOfPlain(file: string)
    requires NoSlash(file)
    ensures Dirname(file) == "." && Dirname("/" + file) == "/"
  {
    var p := "/" + file;
    assert forall i :: 0 < i < |p| ==> p[i] == file[i - 1];
    LastSlashIs(p, 0);
  }

  lemma {:induction false} LastSlashIs(p: string, x: nat)
    requires x < |p| && p[x] == '/' && forall i :: x < i < |p| ==> p[i] != '/'
    ensures LastSlash(p) == Some(x)
    decreases |p|
  {
    if x < |p| - 1 {
      var q := p[..|p| - 1];
      assert q[x] == '/';
      LastSlashIs(q, x);
    }
  }

  /** The as-written test against the intended one on the two inputs that tell them apart. */
  lemma DirnameAsWrittenDiffers()
    ensures DirnameAsWritten("a/b") == Some(".") && Dirname("a/b") == "a"
    ensures DirnameAsWritten("b") == None && Dirname("b") == "."
  {
    LastSlashIs("a/b", 1);
    assert "a/b"[..1] == "a";
    DirnameOfPlain("b");
  }

  /** Apart from a '/' at index 1 or no '/' at all, the as-written function is the intended one. */
  lemma DirnameAsWrittenAgrees(path: string)
    requires LastSlash(path).Some? && LastSlash(path).value != 1
    ensures DirnameAsWritten(path) == Some(Dirname(path))
  {
  }
}

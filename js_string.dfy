/**
 * The JavaScript string primitives the converters rely on: `split` on one
 * character and on a whitespace regular expression, `substring`, `trim`,
 * `parseInt`, `parseFloat` and the decimal rendering of integers.
 */
module JsString {
  import opened Wrappers
  import opened JsNumber

  /** The characters `\s` matches and `trim` removes (WhiteSpace and LineTerminator). */
  predicate IsSpace(c: char) {
    var n := c as int;
    n == 0x09 || n == 0x0A || n == 0x0B || n == 0x0C || n == 0x0D || n == 0x20 ||
    n == 0xA0 || n == 0x1680 || (0x2000 <= n <= 0x200A) || n == 0x2028 || n == 0x2029 ||
    n == 0x202F || n == 0x205F || n == 0x3000 || n == 0xFEFF
  }

  // ---------------------------------------------------------------- split / join

  function IndexOf(s: string, c: char): (i: nat)
    requires c in s
    ensures i < |s| && s[i] == c && c !in s[..i]
  {
    if s[0] == c then 0
    else
      var j := IndexOf(s[1..], c);
      assert s[..j + 1] == [s[0]] + s[1..][..j];
      j + 1
  }

  /** `s.split(sep)` for a one-character separator. */
  function Split(s: string, sep: char): (r: seq<string>)
    ensures |r| >= 1
    ensures forall i :: 0 <= i < |r| ==> sep !in r[i]
    decreases |s|
  {
    if sep !in s then [s]
    else
      var i := IndexOf(s, sep);
      [s[..i]] + Split(s[i + 1..], sep)
  }

  /** `pieces.join(sep)`. */
  function Join(pieces: seq<string>, sep: string): string {
    if |pieces| == 0 then ""
    else if |pieces| == 1 then pieces[0]
    else pieces[0] + sep + Join(pieces[1..], sep)
  }

  /** Joining the pieces of a split with the separator gives back the string. */
  lemma {:induction false} JoinSplit(s: string, sep: char)
    ensures Join(Split(s, sep), [sep]) == s
    decreases |s|
  {
    if sep in s {
      var i := IndexOf(s, sep);
      var rest := s[i + 1..];
      JoinSplit(rest, sep);
      assert Split(s, sep) == [s[..i]] + Split(rest, sep);
      assert s == s[..i] + [sep] + rest;
    }
  }

  /** Splitting pieces joined by a separator they do not contain gives the pieces back. */
  lemma {:induction false} SplitJoin(pieces: seq<string>, sep: char)
    requires |pieces| >= 1 && forall i :: 0 <= i < |pieces| ==> sep !in pieces[i]
    ensures Split(Join(pieces, [sep]), sep) == pieces
    decreases |pieces|
  {
    if |pieces| > 1 {
      var head, rest := pieces[0], Join(pieces[1..], [sep]);
      var s := head + [sep] + rest;
      assert s == Join(pieces, [sep]);
      assert s[|head|] == sep && s[..|head|] == head;
      var i := IndexOf(s, sep);
      assert s[i] == sep;
      assert i == |head|;
      assert s[i + 1..] == rest;
      SplitJoin(pieces[1..], sep);
    }
  }

  // ---------------------------------------------------------------- substring / trim

  /** `s.substring(from, to)` for `from <= to`: indices past the end are clamped. */
  function Substring(s: string, from: nat, to: nat): (r: string)
    requires from <= to
    ensures |r| <= to - from
    ensures from <= |s| ==> from + |r| <= |s| && r == s[from..from + |r|]
    ensures from >= |s| ==> r == []
    ensures to <= |s| ==> |r| == to - from
  {
    var a := if from <= |s| then from else |s|;
    var b := if to <= |s| then to else |s|;
    s[a..b]
  }

  /** `s.trimStart()`. */
  function TrimStart(s: string): (r: string)
    ensures |r| <= |s|
  {
    if |s| > 0 && IsSpace(s[0]) then TrimStart(s[1..]) else s
  }

  /** `s.trimEnd()`. */
  function TrimEnd(s: string): (r: string)
    ensures |r| <= |s|
  {
    if |s| > 0 && IsSpace(s[|s| - 1]) then TrimEnd(s[..|s| - 1]) else s
  }

  /** `s.trim()`. */
  function Trim(s: string): (r: string)
    ensures |r| <= |s|
  {
    TrimEnd(TrimStart(s))
  }

  /** `trimStart` removes exactly the leading whitespace. */
  lemma {:induction false} TrimStartSpec(s: string)
    ensures var r := TrimStart(s);
      && r == s[|s| - |r|..]
      && (forall i :: 0 <= i < |s| - |r| ==> IsSpace(s[i]))
      && (|r| > 0 ==> !IsSpace(r[0]))
  {
    if |s| > 0 && IsSpace(s[0]) {
      TrimStartSpec(s[1..]);
    }
  }

  /** `trimEnd` removes exactly the trailing whitespace. */
  lemma {:induction false} TrimEndSpec(s: string)
    ensures var r := TrimEnd(s);
      && r == s[..|r|]
      && (forall i :: |r| <= i < |s| ==> IsSpace(s[i]))
      && (|r| > 0 ==> !IsSpace(r[|r| - 1]))
  {
    if |s| > 0 && IsSpace(s[|s| - 1]) {
      TrimEndSpec(s[..|s| - 1]);
    }
  }

  /**
   * `trim` gives the slice of `s` left after removing whitespace at both ends:
   * everything cut off is whitespace and the result neither starts nor ends with it.
   */
  lemma TrimSpec(s: string)
    ensures var r := Trim(s);
      && (|r| > 0 ==> !IsSpace(r[0]) && !IsSpace(r[|r| - 1]))
      && exists k :: 0 <= k <= |s| - |r|
           && r == s[k..][..|r|]
           && (forall i :: 0 <= i < k ==> IsSpace(s[i]))
           && (forall i :: k + |r| <= i < |s| ==> IsSpace(s[i]))
  {
    var t := TrimStart(s);
    var r := TrimEnd(t);
    TrimStartSpec(s);
    TrimEndSpec(t);
    var k := |s| - |t|;
    assert r == s[k..][..|r|];
    assert forall i :: k + |r| <= i < |s| ==> s[i] == t[i - k];
  }

  // ---------------------------------------------------------------- split on /\s+/

  /** Index of the first whitespace character of `s`, or `|s|` when there is none. */
  function FirstSpace(s: string): (i: nat)
    ensures i <= |s| && (i < |s| ==> IsSpace(s[i]))
    ensures forall k :: 0 <= k < i ==> !IsSpace(s[k])
  {
    if |s| == 0 || IsSpace(s[0]) then 0 else 1 + FirstSpace(s[1..])
  }

  /** Length of the run of whitespace at the head of `s`. */
  function LeadingSpaces(s: string): (n: nat)
    ensures n <= |s| && (n < |s| ==> !IsSpace(s[n]))
    ensures forall k :: 0 <= k < n ==> IsSpace(s[k])
  {
    if |s| > 0 && IsSpace(s[0]) then 1 + LeadingSpaces(s[1..]) else 0
  }

  /** `s.split(/\s+/)`: the pieces between maximal runs of whitespace. */
  function SplitWs(s: string): (r: seq<string>)
    ensures |r| >= 1
    ensures forall i, k :: 0 <= i < |r| && 0 <= k < |r[i]| ==> !IsSpace(r[i][k])
    decreases |s|
  {
    var i := FirstSpace(s);
    if i == |s| then [s]
    else
      var t := s[i..];
      var j := LeadingSpaces(t);
      [s[..i]] + SplitWs(t[j..])
  }

  /** Every character of `s` is whitespace. */
  predicate AllSpace(s: string) {
    forall k :: 0 <= k < |s| ==> IsSpace(s[k])
  }

  /** No character of `s` is whitespace. */
  predicate NoSpace(s: string) {
    forall k :: 0 <= k < |s| ==> !IsSpace(s[k])
  }

  /** The fields laid out with `gaps[i]` between `fields[i]` and `fields[i + 1]`. */
  function Spaced(fields: seq<string>, gaps: seq<string>): string
    requires |fields| >= 1 && |gaps| == |fields| - 1
    decreases |fields|
  {
    if |fields| == 1 then fields[0] else fields[0] + gaps[0] + Spaced(fields[1..], gaps[1..])
  }

  /** Non-empty fields without whitespace, separated by non-empty runs of whitespace. */
  predicate WellSpaced(fields: seq<string>, gaps: seq<string>) {
    && |fields| >= 1 && |gaps| == |fields| - 1
    && (forall i :: 0 <= i < |fields| ==> |fields[i]| > 0 && NoSpace(fields[i]))
    && (forall i :: 0 <= i < |gaps| ==> |gaps[i]| > 0 && AllSpace(gaps[i]))
  }

  lemma FirstSpaceAfter(a: string, b: string)
    requires NoSpace(a) && (b == [] || IsSpace(b[0]))
    ensures FirstSpace(a + b) == |a|
  {
    assert forall k :: 0 <= k < |a| ==> (a + b)[k] == a[k];
    if b != [] {
      assert (a + b)[|a|] == b[0];
    }
  }

  lemma LeadingSpacesBefore(a: string, b: string)
    requires AllSpace(a) && (b == [] || !IsSpace(b[0]))
    ensures LeadingSpaces(a + b) == |a|
  {
    assert forall k :: 0 <= k < |a| ==> (a + b)[k] == a[k];
    if b != [] {
      assert (a + b)[|a|] == b[0];
    }
  }

  lemma WellSpacedTail(fields: seq<string>, gaps: seq<string>)
    requires WellSpaced(fields, gaps) && |fields| > 1
    ensures WellSpaced(fields[1..], gaps[1..])
  {
    assert forall i :: 0 <= i < |fields| - 1 ==> fields[1..][i] == fields[i + 1];
    assert forall i :: 0 <= i < |gaps| - 1 ==> gaps[1..][i] == gaps[i + 1];
  }

  /** Well-spaced fields start with the first field's first character and end with the last field's last. */
  lemma {:induction false} SpacedEnds(fields: seq<string>, gaps: seq<string>)
    requires WellSpaced(fields, gaps)
    ensures var s := Spaced(fields, gaps); var last := fields[|fields| - 1];
      |s| > 0 && s[0] == fields[0][0] && s[|s| - 1] == last[|last| - 1]
    decreases |fields|
  {
    if |fields| > 1 {
      WellSpacedTail(fields, gaps);
      SpacedEnds(fields[1..], gaps[1..]);
      var head, rest := fields[0] + gaps[0], Spaced(fields[1..], gaps[1..]);
      assert Spaced(fields, gaps) == head + rest;
      assert (head + rest)[0] == head[0] == fields[0][0];
      assert (head + rest)[|head + rest| - 1] == rest[|rest| - 1];
    }
  }

  /** A field, then a whitespace run, then text starting with a non-space: the field is split off. */
  lemma SplitWsStep(f: string, g: string, rest: string)
    requires |f| > 0 && NoSpace(f) && |g| > 0 && AllSpace(g)
    requires |rest| > 0 && !IsSpace(rest[0])
    ensures SplitWs(f + g + rest) == [f] + SplitWs(rest)
  {
    var t := g + rest;
    var s := f + t;
    assert s == f + g + rest;
    FirstSpaceAfter(f, t);
    assert s[|f|..] == t && s[..|f|] == f;
    LeadingSpacesBefore(g, rest);
    assert t[|g|..] == rest;
  }

  /** Splitting well-spaced fields on `/\s+/` gives the fields back. */
  lemma {:induction false} SplitWsSpaced(fields: seq<string>, gaps: seq<string>)
    requires WellSpaced(fields, gaps)
    ensures SplitWs(Spaced(fields, gaps)) == fields
    decreases |fields|
  {
    if |fields| == 1 {
      assert fields[0] + [] == fields[0];
      FirstSpaceAfter(fields[0], []);
    } else {
      WellSpacedTail(fields, gaps);
      SpacedEnds(fields[1..], gaps[1..]);
      SplitWsStep(fields[0], gaps[0], Spaced(fields[1..], gaps[1..]));
      SplitWsSpaced(fields[1..], gaps[1..]);
    }
  }

  /** Whitespace around a text that starts and ends with a non-space character is what `trim` removes. */
  lemma TrimAround(lead: string, core: string, trail: string)
    requires AllSpace(lead) && AllSpace(trail)
    requires |core| > 0 && !IsSpace(core[0]) && !IsSpace(core[|core| - 1])
    ensures Trim(lead + core + trail) == core
  {
    TrimStartAll(lead, core + trail);
    assert lead + core + trail == lead + (core + trail);
    TrimEndAll(core, trail);
  }

  lemma {:induction false} TrimStartAll(lead: string, x: string)
    requires AllSpace(lead) && |x| > 0 && !IsSpace(x[0])
    ensures TrimStart(lead + x) == x
  {
    if |lead| > 0 {
      assert (lead + x)[1..] == lead[1..] + x;
      TrimStartAll(lead[1..], x);
    } else {
      assert lead + x == x;
    }
  }

  lemma {:induction false} TrimEndAll(x: string, trail: string)
    requires AllSpace(trail) && |x| > 0 && !IsSpace(x[|x| - 1])
    ensures TrimEnd(x + trail) == x
  {
    if |trail| > 0 {
      assert (x + trail)[..|x + trail| - 1] == x + trail[..|trail| - 1];
      TrimEndAll(x, trail[..|trail| - 1]);
    } else {
      assert x + trail == x;
    }
  }

  // ---------------------------------------------------------------- parseInt

  /** The value of `c` as a digit in bases up to 36, or 36 when `c` is no digit. */
  function DigitValue(c: char): (d: nat)
    ensures d <= 36
  {
    if '0' <= c <= '9' then c as int - '0' as int
    else if 'a' <= c <= 'z' then c as int - 'a' as int + 10
    else if 'A' <= c <= 'Z' then c as int - 'A' as int + 10
    else 36
  }

  predicate IsDigit(c: char, radix: nat) {
    DigitValue(c) < radix
  }

  /** Length of the run of digits in `radix` at the head of `s`. */
  function DigitRun(s: string, radix: nat): (n: nat)
    ensures n <= |s|
  {
    if |s| > 0 && IsDigit(s[0], radix) then 1 + DigitRun(s[1..], radix) else 0
  }

  /** The run is the longest prefix of `s` made of digits. */
  lemma {:induction false} DigitRunIsMaximal(s: string, radix: nat)
    ensures var n := DigitRun(s, radix);
      (n < |s| ==> !IsDigit(s[n], radix)) && forall k :: 0 <= k < n ==> IsDigit(s[k], radix)
  {
    if |s| > 0 && IsDigit(s[0], radix) {
      DigitRunIsMaximal(s[1..], radix);
    }
  }

  /** A run of `n` digits followed by a non-digit or the end is the whole digit run. */
  lemma {:induction false} DigitRunOf(s: string, n: nat)
    requires n <= |s| && forall k :: 0 <= k < n ==> IsDigit(s[k], 10)
    requires n == |s| || !IsDigit(s[n], 10)
    ensures DigitRun(s, 10) == n
  {
    if n > 0 {
      assert forall k :: 0 <= k < n - 1 ==> s[1..][k] == s[k + 1];
      assert n - 1 < |s| - 1 ==> s[1..][n - 1] == s[n];
      DigitRunOf(s[1..], n - 1);
    }
  }

  /**
   * Positional value of a digit string, most significant digit first, in base 10 or 16
   * (the only radixes read here; the products stay linear for the solver).
   */
  function DigitsValue(ds: string, radix: nat): nat
    requires radix == 10 || radix == 16
  {
    if ds == [] then 0
    else
      var high := DigitsValue(ds[..|ds| - 1], radix);
      var d := DigitValue(ds[|ds| - 1]);
      (if radix == 16 then 16 * high else 10 * high) + (if d < radix then d else 0)
  }

  /** A leading `-` or `+` taken off. */
  datatype Signed = Signed(negative: bool, rest: string)

  function SplitSign(t: string): (r: Signed)
    ensures |r.rest| <= |t|
  {
    if |t| > 0 && t[0] == '-' then Signed(true, t[1..])
    else if |t| > 0 && t[0] == '+' then Signed(false, t[1..])
    else Signed(false, t)
  }

  predicate HasHexPrefix(u: string) {
    |u| >= 2 && u[0] == '0' && (u[1] == 'x' || u[1] == 'X')
  }

  /** What `parseInt` reads digits from: the sign, the radix and the text after any `0x` prefix. */
  datatype Numeral = Numeral(negative: bool, radix: nat, body: string)

  function NumeralOf(s: string, allowHex: bool): (nm: Numeral)
    ensures nm.radix == 10 || nm.radix == 16
  {
    var sg := SplitSign(TrimStart(s));
    if allowHex && HasHexPrefix(sg.rest) then Numeral(sg.negative, 16, sg.rest[2..])
    else Numeral(sg.negative, 10, sg.rest)
  }

  /**
   * `parseInt(s)` when `allowHex` (no radix given: a `0x` prefix selects base 16)
   * and `parseInt(s, 10)` otherwise. `None` is NaN.
   */
  function ParseIntRadix(s: string, allowHex: bool): Option<int> {
    var nm := NumeralOf(s, allowHex);
    var n := DigitRun(nm.body, nm.radix);
    if n == 0 then None
    else
      var mag: int := DigitsValue(nm.body[..n], nm.radix);
      Some(if nm.negative then -mag else mag)
  }

  /**
   * `parseInt` is NaN exactly when the text after leading whitespace and one
   * sign does not start with a digit: with a `0x` prefix (and no radix given)
   * a hexadecimal digit must follow the prefix, otherwise a decimal digit
   * must come first.
   */
  lemma ParseIntRadixSpec(s: string, allowHex: bool)
    ensures var u := SplitSign(TrimStart(s)).rest;
      ParseIntRadix(s, allowHex).None? <==>
        if allowHex && HasHexPrefix(u) then |u| == 2 || !IsDigit(u[2], 16)
        else |u| == 0 || !IsDigit(u[0], 10)
  {
  }

  /** `parseInt(s)`. */
  function ParseInt(s: string): Option<int> {
    ParseIntRadix(s, true)
  }

  /** `parseInt(s, 10)`. */
  function ParseInt10(s: string): Option<int> {
    ParseIntRadix(s, false)
  }

  // ---------------------------------------------------------------- integers to text

  function DigitChar(d: nat): (c: char)
    requires d < 10
    ensures DigitValue(c) == d
  {
    ('0' as int + d) as char
  }

  /** Decimal rendering of a natural number, as `String(n)` gives it. */
  function NatToString(n: nat): (s: string)
    ensures |s| >= 1
    ensures forall k :: 0 <= k < |s| ==> IsDigit(s[k], 10)
    ensures s[0] == '0' ==> n == 0
  {
    if n < 10 then [DigitChar(n)] else NatToString(n / 10) + [DigitChar(n % 10)]
  }

  /** Decimal rendering of an integer, as `String(n)` gives it. */
  function IntToString(n: int): string {
    if n < 0 then "-" + NatToString(-n) else NatToString(n)
  }

  function Spaces(k: nat): (s: string)
    ensures |s| == k && forall i :: 0 <= i < k ==> s[i] == ' '
  {
    seq(k, _ => ' ')
  }

  lemma {:induction false} DigitsValueOfNatToString(n: nat)
    ensures DigitsValue(NatToString(n), 10) == n
  {
    var s := NatToString(n);
    if n >= 10 {
      DigitsValueOfNatToString(n / 10);
      assert s[..|s| - 1] == NatToString(n / 10);
    }
  }

  lemma {:induction false} DigitRunAppend(a: string, b: string, radix: nat)
    requires forall k :: 0 <= k < |a| ==> IsDigit(a[k], radix)
    ensures DigitRun(a + b, radix) == |a| + DigitRun(b, radix)
  {
    if |a| > 0 {
      assert (a + b)[1..] == a[1..] + b;
      DigitRunAppend(a[1..], b, radix);
    } else {
      assert a + b == b;
    }
  }

  lemma {:induction false} TrimStartSpaces(k: nat, x: string)
    requires |x| > 0 && !IsSpace(x[0])
    ensures TrimStart(Spaces(k) + x) == x
  {
    if k > 0 {
      assert (Spaces(k) + x)[1..] == Spaces(k - 1) + x;
      TrimStartSpaces(k - 1, x);
    } else {
      assert Spaces(k) + x == x;
    }
  }

  /**
   * A right-aligned integer field parses to its value: leading blanks are
   * skipped and parsing stops at the first character after the digits that
   * is neither a digit nor a letter (a column boundary, a blank, the end).
   */
  lemma ParseIntOfField(k: nat, n: int, rest: string, allowHex: bool)
    requires rest == [] || DigitValue(rest[0]) == 36
    ensures ParseIntRadix(Spaces(k) + IntToString(n) + rest, allowHex) == Some(n)
  {
    var m: nat := if n < 0 then -n else n;
    var digits := NatToString(m);
    var u := digits + rest;
    NumeralOfField(k, n, rest, allowHex);
    DigitRunAppend(digits, rest, 10);
    assert DigitRun(rest, 10) == 0;
    assert DigitRun(u, 10) == |digits|;
    assert u[..|digits|] == digits;
    DigitsValueOfNatToString(m);
  }

  lemma DigitIsNotSpace(c: char)
    ensures c == '-' || DigitValue(c) < 36 ==> !IsSpace(c)
  {
  }

  lemma TrimStartOfField(k: nat, n: int, rest: string)
    ensures TrimStart(Spaces(k) + IntToString(n) + rest) == IntToString(n) + rest
  {
    var x := IntToString(n) + rest;
    assert Spaces(k) + IntToString(n) + rest == Spaces(k) + x;
    assert x[0] == '-' || IsDigit(x[0], 10);
    DigitIsNotSpace(x[0]);
    TrimStartSpaces(k, x);
  }

  lemma SplitSignOfField(n: int, rest: string)
    ensures SplitSign(IntToString(n) + rest) == Signed(n < 0, NatToString(if n < 0 then -n else n) + rest)
  {
    var digits := NatToString(if n < 0 then -n else n);
    assert (digits + rest)[0] == digits[0];
    UnsignedDigits(digits + rest);
    if n < 0 {
      assert IntToString(n) + rest == ['-'] + (digits + rest);
    } else {
      assert IntToString(n) + rest == digits + rest;
    }
  }

  lemma UnsignedDigits(u: string)
    requires |u| > 0 && IsDigit(u[0], 10)
    ensures SplitSign(u) == Signed(false, u)
  {
  }

  lemma NoHexPrefixOfField(m: nat, rest: string)
    requires rest == [] || DigitValue(rest[0]) == 36
    ensures !HasHexPrefix(NatToString(m) + rest)
  {
    var digits := NatToString(m);
    var u := digits + rest;
    if |digits| == 1 {
      assert |rest| > 0 ==> u[1] == rest[0];
    } else {
      assert u[1] == digits[1];
    }
  }

  lemma NumeralOfField(k: nat, n: int, rest: string, allowHex: bool)
    requires rest == [] || DigitValue(rest[0]) == 36
    ensures NumeralOf(Spaces(k) + IntToString(n) + rest, allowHex)
         == Numeral(n < 0, 10, NatToString(if n < 0 then -n else n) + rest)
  {
    TrimStartOfField(k, n, rest);
    SplitSignOfField(n, rest);
    NoHexPrefixOfField(if n < 0 then -n else n, rest);
  }

  /** `parseInt(ds, 10)` of a non-empty string of decimal digits is its positional value. */
  lemma ParseInt10OfDigits(ds: string)
    requires |ds| > 0 && forall k :: 0 <= k < |ds| ==> IsDigit(ds[k], 10)
    ensures ParseInt10(ds) == Some(DigitsValue(ds, 10))
  {
    DigitIsNotSpace(ds[0]);
    assert TrimStart(ds) == ds;
    assert SplitSign(ds) == Signed(false, ds);
    DigitRunAppend(ds, [], 10);
    assert ds + [] == ds;
    assert ds[..|ds|] == ds;
  }

  /** `parseInt(String(n), 10)` gives `n` back. */
  lemma ParseInt10OfIntToString(n: int)
    ensures ParseInt10(IntToString(n)) == Some(n)
  {
    ParseIntOfField(0, n, [], false);
    assert Spaces(0) + IntToString(n) + [] == IntToString(n);
  }

  // ---------------------------------------------------------------- parseFloat

  /** `m` times ten to the power `e`, one factor of ten at a time. */
  function Scale10(m: real, e: int): real
    decreases if e < 0 then -e else e
  {
    if e == 0 then m else if e > 0 then 10.0 * Scale10(m, e - 1) else Scale10(m, e + 1) / 10.0
  }

  /** The value of a complete exponent part (`e`, optional sign, digits) at the head of `s`, else 0. */
  function ExponentOf(s: string): int {
    if |s| >= 2 && (s[0] == 'e' || s[0] == 'E') then
      var sg := SplitSign(s[1..]);
      var n := DigitRun(sg.rest, 10);
      if n == 0 then 0
      else
        var v: int := DigitsValue(sg.rest[..n], 10);
        if sg.negative then -v else v
    else 0
  }

  predicate StartsWithInfinity(u: string) {
    |u| >= 8 && u[..8] == "Infinity"
  }

  /** Whether an unsigned decimal literal (StrUnsignedDecimalLiteral) starts `u`. */
  predicate StartsDecimal(u: string) {
    StartsWithInfinity(u) || (|u| > 0 && IsDigit(u[0], 10)) || (|u| > 1 && u[0] == '.' && IsDigit(u[1], 10))
  }

  /**
   * `parseFloat(s)`: the longest decimal literal after leading whitespace,
   * evaluated exactly; NaN when there is none.
   */
  function ParseFloat(s: string): Number {
    var sg := SplitSign(TrimStart(s));
    var u := sg.rest;
    if StartsWithInfinity(u) then (if sg.negative then NegInf else PosInf)
    else
      var a := DigitRun(u, 10);
      var afterInt := u[a..];
      var hasDot := |afterInt| > 0 && afterInt[0] == '.';
      var b := if hasDot then DigitRun(afterInt[1..], 10) else 0;
      if a == 0 && b == 0 then NaN
      else
        var frac := if hasDot then afterInt[1..1 + b] else "";
        var rest := if hasDot then afterInt[1 + b..] else afterInt;
        var mag := Scale10(DigitsValue(u[..a], 10) as real + Scale10(DigitsValue(frac, 10) as real, -b), ExponentOf(rest));
        Finite(if sg.negative then -mag else mag)
  }

  /**
   * `parseFloat` is NaN exactly when no decimal literal follows the whitespace and sign,
   * and infinite exactly when that literal is `Infinity`.
   */
  lemma ParseFloatSpec(s: string)
    ensures var u := SplitSign(TrimStart(s)).rest;
      && (ParseFloat(s).NaN? <==> !StartsDecimal(u))
      && (ParseFloat(s).PosInf? || ParseFloat(s).NegInf? <==> StartsWithInfinity(u))
  {
  }
}

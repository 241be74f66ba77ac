/** The configuration file reader of ornament.c: trim, ieq, parse_shape / parse_color /
    parse_pos and the per-line logic of load_ini, which turns lines of the form
    SHAPE=[COLOR, POSITION, SCREEN] into ShapeConfig entries.

    Text is a sequence of characters. A C string is the text before its first NUL byte;
    the buffers the source hands to trim and ieq hold no NUL of their own (NoNul). The file
    itself is given as its sequence of lines (None when it cannot be opened). */
module Ini {
  import opened Config

  datatype Option<T> = None | Some(value: T)

  /** Text a C string can hold: no NUL before its terminator. */
  predicate NoNul(s: string)
  {
    forall k :: 0 <= k < |s| ==> s[k] != '\0'
  }

  /** A piece of NUL-free text is NUL-free. */
  lemma NoNulSlice(s: string, i: int, j: int)
    requires NoNul(s) && 0 <= i <= j <= |s|
    ensures NoNul(s[i..j])
  {
  }

  lemma NoNulPrefix(s: string, j: int)
    requires NoNul(s) && 0 <= j <= |s|
    ensures NoNul(s[..j])
  {
  }

  lemma NoNulTake(s: string, n: nat)
    requires NoNul(s)
    ensures NoNul(Take(s, n))
  {
  }

  /** strchr(s + from, c): the first position at or after from that holds c. */
  function Find(s: string, c: char, from: nat): (r: Option<nat>)
    requires from <= |s|
    ensures r.Some? ==> from <= r.value < |s| && s[r.value] == c
    ensures r.Some? ==> forall k :: from <= k < r.value ==> s[k] != c
    ensures r.None? ==> forall k :: from <= k < |s| ==> s[k] != c
    decreases |s| - from
  {
    if from == |s| then None
    else if s[from] == c then Some(from)
    else Find(s, c, from + 1)
  }

  /** The C string a line buffer holds: everything before the first NUL. */
  function CText(s: string): (t: string)
    ensures NoNul(t) && t <= s
    ensures |t| < |s| ==> s[|t|] == '\0'
  {
    match Find(s, '\0', 0)
    case None => s
    case Some(i) => s[..i]
  }

  /** What memcpy into a buffer of n + 1 bytes keeps: at most n characters. */
  function Take(s: string, n: nat): (t: string)
    ensures t <= s && |t| == if |s| <= n then |s| else n
  {
    if |s| <= n then s else s[..n]
  }

  // ---------------------------------------------------------------- trim

  /** Characters trim skips at the front. */
  predicate Lead(c: char)
  {
    c == ' ' || c == '\t' || c == '\r'
  }

  /** Characters trim cuts off at the back: the front set and the line feed. */
  predicate Trail(c: char)
  {
    Lead(c) || c == '\n'
  }

  /** How many characters trim skips at the front. */
  function LeadLen(s: string): (n: nat)
    ensures n <= |s|
    ensures forall k :: 0 <= k < n ==> Lead(s[k])
    ensures n == |s| || !Lead(s[n])
  {
    if |s| == 0 || !Lead(s[0]) then 0 else 1 + LeadLen(s[1..])
  }

  /** How many characters are left once trim has cut the back. */
  function KeptLen(s: string): (n: nat)
    ensures n <= |s|
    ensures forall k :: n <= k < |s| ==> Trail(s[k])
    ensures n == 0 || !Trail(s[n - 1])
  {
    if |s| == 0 || !Trail(s[|s| - 1]) then |s| else KeptLen(s[..|s| - 1])
  }

  /** What trim(s) returns. */
  function Trimmed(s: string): string
  {
    var t := s[LeadLen(s)..];
    t[..KeptLen(t)]
  }

  /** s[i..j] is a trim cut of s: the front is space, tab or CR, the back is also allowed
      line feeds, and a non-empty middle starts and ends with a character trim keeps. */
  predicate TrimCut(s: string, i: int, j: int)
  {
    0 <= i <= j <= |s|
    && (forall k :: 0 <= k < i ==> Lead(s[k]))
    && (forall k :: j <= k < |s| ==> Trail(s[k]))
    && (i < j ==> !Lead(s[i]) && !Trail(s[j - 1]))
  }

  /** trim returns a trim cut of its argument. */
  lemma TrimmedIsCut(s: string)
    ensures exists i, j :: TrimCut(s, i, j) && Trimmed(s) == s[i..j]
  {
    var i := LeadLen(s);
    var j := i + KeptLen(s[i..]);
    assert TrimCut(s, i, j) && Trimmed(s) == s[i..j];
  }

  /** There is only one trim cut, so it is what trim returns. */
  lemma TrimCutUnique(s: string, i: int, j: int)
    requires TrimCut(s, i, j)
    ensures Trimmed(s) == s[i..j]
  {
    var i0 := LeadLen(s);
    var t := s[i0..];
    var n := KeptLen(t);
    if i < j {
      assert i0 == i;
      assert n == j - i;
    } else {
      assert i <= i0;
      assert n == 0;
    }
  }

  /** Trimming twice changes nothing. */
  lemma TrimIdempotent(s: string)
    ensures Trimmed(Trimmed(s)) == Trimmed(s)
  {
    var r := Trimmed(s);
    TrimmedIsCut(s);
    TrimCutUnique(r, 0, |r|);
  }

  lemma TrimmedNoNul(s: string)
    requires NoNul(s)
    ensures NoNul(Trimmed(s))
  {
    var i := LeadLen(s);
    NoNulSlice(s, i, i + KeptLen(s[i..]));
    assert Trimmed(s) == s[i..i + KeptLen(s[i..])];
  }

  /** trim(s): skip space, tab and CR at the front, then cut space, tab, CR and LF off the
      back. The source writes NULs into the buffer and returns a pointer into it; here the
      kept slice is returned. */
  method Trim(s: string) returns (r: string)
    requires NoNul(s)
    ensures r == Trimmed(s)
  {
    var i := 0;
    while i < |s| && Lead(s[i])
      invariant 0 <= i <= |s|
      invariant forall k :: 0 <= k < i ==> Lead(s[k])
    {
      i := i + 1;
    }
    var n := |s|;
    while n > i && Trail(s[n - 1])
      invariant i <= n <= |s|
      invariant forall k :: n <= k < |s| ==> Trail(s[k])
    {
      n := n - 1;
    }
    TrimCutUnique(s, i, n);
    r := s[i..n];
  }

  // ---------------------------------------------------------------- ieq

  /** ASCII upper case: 'a'..'z' become 'A'..'Z', everything else is kept. */
  function Upper(c: char): char
  {
    if 'a' <= c <= 'z' then (c as int - 32) as char else c
  }

  /** Equal up to ASCII case. */
  predicate SameUpper(a: string, b: string)
  {
    |a| == |b| && forall k :: 0 <= k < |a| ==> Upper(a[k]) == Upper(b[k])
  }

  /** Equality up to case is an equivalence. */
  lemma SameUpperEquivalence(a: string, b: string, c: string)
    ensures SameUpper(a, a)
    ensures SameUpper(a, b) ==> SameUpper(b, a)
    ensures SameUpper(a, b) && SameUpper(b, c) ==> SameUpper(a, c)
  {
  }

  /** The byte of a C string at position i: the terminator past the end. */
  function At(s: string, i: nat): char
  {
    if i < |s| then s[i] else '\0'
  }

  /** ieq(a, b): walk both strings, compare upper-cased bytes, stop at the first
      difference or at the common terminator. */
  method Ieq(a: string, b: string) returns (eq: bool)
    requires NoNul(a) && NoNul(b)
    ensures eq <==> SameUpper(a, b)
  {
    var i := 0;
    while true
      invariant i <= |a| && i <= |b|
      invariant forall k :: 0 <= k < i ==> Upper(a[k]) == Upper(b[k])
      decreases |a| - i
    {
      var ca, cb := Upper(At(a, i)), Upper(At(b, i));
      if ca != cb {
        return false;
      }
      if ca == '\0' {
        return true;
      }
      i := i + 1;
    }
  }

  // ---------------------------------------------------------------- parse_*

  /** The index parse_shape, parse_color and parse_pos return: the first name equal to s
      up to case, or -1 when there is none. */
  function Lookup(s: string, names: seq<string>): (r: int)
    ensures -1 <= r < |names|
    ensures r >= 0 ==> SameUpper(s, names[r]) && forall j :: 0 <= j < r ==> !SameUpper(s, names[j])
    ensures r < 0 ==> forall j :: 0 <= j < |names| ==> !SameUpper(s, names[j])
  {
    if |names| == 0 then -1
    else if SameUpper(s, names[0]) then 0
    else
      var r := Lookup(s, names[1..]);
      if r < 0 then -1 else r + 1
  }

  /** The look-up ignores case. */
  lemma LookupIgnoresCase(s: string, t: string, names: seq<string>)
    requires SameUpper(s, t)
    ensures Lookup(s, names) == Lookup(t, names)
  {
    forall j | 0 <= j < |names|
      ensures SameUpper(s, names[j]) <==> SameUpper(t, names[j])
    {
      SameUpperEquivalence(s, t, names[j]);
      SameUpperEquivalence(t, s, names[j]);
    }
  }

  /** The loop of parse_shape / parse_color / parse_pos over a name table. */
  method ParseIndex(s: string, names: seq<string>) returns (r: int)
    requires NoNul(s) && forall i :: 0 <= i < |names| ==> NoNul(names[i])
    ensures r == Lookup(s, names)
  {
    var i := 0;
    while i < |names|
      invariant 0 <= i <= |names|
      invariant forall j :: 0 <= j < i ==> !SameUpper(s, names[j])
    {
      var eq := Ieq(s, names[i]);
      if eq {
        return i;
      }
      i := i + 1;
    }
    return -1;
  }

  // ---------------------------------------------------------------- strtok

  /** Length of the run of non-comma characters at the front. */
  function RunLen(s: string): (n: nat)
    ensures n <= |s|
    ensures forall k :: 0 <= k < n ==> s[k] != ','
    ensures n == |s| || s[n] == ','
  {
    if |s| == 0 || s[0] == ',' then 0 else 1 + RunLen(s[1..])
  }

  /** The fields strtok(inside, ",") hands out one after another: the maximal runs
      between commas, empty runs skipped. */
  function Tokens(s: string): seq<string>
    decreases |s|
  {
    if |s| == 0 then []
    else if s[0] == ',' then Tokens(s[1..])
    else
      var n := RunLen(s);
      [s[..n]] + Tokens(s[n..])
  }

  /** A token strtok can return: non-empty and free of the delimiter. */
  predicate Field(t: string)
  {
    |t| > 0 && forall k :: 0 <= k < |t| ==> t[k] != ','
  }

  /** s with its commas removed. */
  function Uncomma(s: string): string
  {
    if |s| == 0 then [] else (if s[0] == ',' then [] else [s[0]]) + Uncomma(s[1..])
  }

  /** Glue a list of strings together. */
  function Concat(ts: seq<string>): string
  {
    if |ts| == 0 then [] else ts[0] + Concat(ts[1..])
  }

  lemma {:induction false} UncommaAppend(a: string, b: string)
    ensures Uncomma(a + b) == Uncomma(a) + Uncomma(b)
  {
    if |a| > 0 {
      assert (a + b)[1..] == a[1..] + b;
      UncommaAppend(a[1..], b);
    } else {
      assert a + b == b;
    }
  }

  lemma {:induction false} UncommaField(t: string)
    requires forall k :: 0 <= k < |t| ==> t[k] != ','
    ensures Uncomma(t) == t
  {
    if |t| > 0 {
      UncommaField(t[1..]);
    }
  }

  /** Every token is a field, the tokens of text without NUL hold no NUL, and gluing the
      tokens back together gives the text without its commas. */
  lemma {:induction false} TokensParts(s: string)
    ensures forall i :: 0 <= i < |Tokens(s)| ==> Field(Tokens(s)[i])
    ensures NoNul(s) ==> forall i :: 0 <= i < |Tokens(s)| ==> NoNul(Tokens(s)[i])
    ensures Concat(Tokens(s)) == Uncomma(s)
    decreases |s|
  {
    if |s| > 0 {
      if s[0] == ',' {
        TokensParts(s[1..]);
      } else {
        var n := RunLen(s);
        TokensParts(s[n..]);
        var ts := Tokens(s);
        assert ts == [s[..n]] + Tokens(s[n..]);
        assert ts[1..] == Tokens(s[n..]);
        UncommaField(s[..n]);
        UncommaAppend(s[..n], s[n..]);
        assert s[..n] + s[n..] == s;
      }
    }
  }

  /** t occurs in s at p as a whole run: it starts s or follows a comma, and it ends s or is
      followed by a comma. */
  predicate RunAt(s: string, t: string, p: int)
  {
    0 <= p && p + |t| <= |s| && s[p..p + |t|] == t
    && (p == 0 || s[p - 1] == ',') && (p + |t| == |s| || s[p + |t|] == ',')
  }

  /** t is one of the whole runs of s. */
  ghost predicate IsRun(s: string, t: string)
  {
    exists p :: RunAt(s, t, p)
  }

  /** A whole run of a suffix of s is a whole run of s when the suffix starts s or follows a
      comma. */
  lemma RunShift(s: string, k: nat, t: string, p: int)
    requires k <= |s| && RunAt(s[k..], t, p)
    requires k == 0 || s[k - 1] == ','
    ensures RunAt(s, t, k + p)
  {
    assert s[k..][p..p + |t|] == s[k + p..k + p + |t|];
  }

  /** The whole runs of a suffix that starts s or follows a comma are whole runs of s. */
  lemma RunsShift(s: string, k: nat, ts: seq<string>)
    requires k <= |s| && (k == 0 || s[k - 1] == ',')
    requires forall i :: 0 <= i < |ts| ==> IsRun(s[k..], ts[i])
    ensures forall i :: 0 <= i < |ts| ==> IsRun(s, ts[i])
  {
    forall i | 0 <= i < |ts|
      ensures IsRun(s, ts[i])
    {
      var p :| RunAt(s[k..], ts[i], p);
      RunShift(s, k, ts[i], p);
    }
  }

  /** strtok cuts at every comma and nowhere else: each token is a whole run of the text,
      so with TokensParts the tokens are exactly its non-empty runs, in order. */
  lemma {:induction false} TokensAreRuns(s: string)
    ensures forall i :: 0 <= i < |Tokens(s)| ==> IsRun(s, Tokens(s)[i])
    decreases |s|
  {
    if |s| > 0 {
      if s[0] == ',' {
        TokensAreRuns(s[1..]);
        RunsShift(s, 1, Tokens(s[1..]));
      } else {
        var n := RunLen(s);
        var rest := Tokens(s[n..]);
        assert Tokens(s) == [s[..n]] + rest;
        assert RunAt(s, s[..n], 0);
        if n < |s| {
          assert s[n..][1..] == s[n + 1..];
          assert rest == Tokens(s[n + 1..]);
          TokensAreRuns(s[n + 1..]);
          RunsShift(s, n + 1, rest);
        } else {
          assert s[n..] == [];
        }
      }
    }
  }

  /** A field followed by a comma is the next token. */
  lemma TokensCons(a: string, rest: string)
    requires Field(a)
    ensures Tokens(a + [','] + rest) == [a] + Tokens(rest)
  {
    var s := a + [','] + rest;
    assert s[|a|] == ',';
    assert forall k :: 0 <= k < |a| ==> s[k] == a[k];
    assert RunLen(s) == |a|;
    assert s[..|a|] == a;
    assert s[|a|..][1..] == rest;
  }

  /** A lone field is the only token. */
  lemma TokensSingle(a: string)
    requires Field(a)
    ensures Tokens(a) == [a]
  {
    assert RunLen(a) == |a|;
    assert a[..|a|] == a;
  }

  // ---------------------------------------------------------------- quotes

  /** The optional quotes load_ini strips from a field: a field that starts and ends with
      '"' loses both (a lone '"' becomes empty, as the byte after it is the terminator). */
  function Unquote(f: string): string
  {
    if |f| >= 1 && f[0] == '"' && f[|f| - 1] == '"' then
      if |f| == 1 then [] else f[1..|f| - 1]
    else f
  }

  lemma UnquoteNoNul(f: string)
    requires NoNul(f)
    ensures NoNul(Unquote(f))
  {
    if |f| >= 2 && f[0] == '"' && f[|f| - 1] == '"' {
      NoNulSlice(f, 1, |f| - 1);
    }
  }

  /** Quoting a word and stripping the quotes gives the word back; a field that does not
      start with a quote is kept as it is. */
  lemma UnquoteRoundTrip(w: string)
    ensures Unquote(['"'] + w + ['"']) == w
    ensures (|w| == 0 || w[0] != '"') ==> Unquote(w) == w
  {
    var q := ['"'] + w + ['"'];
    assert q[1..|q| - 1] == w;
  }

  // ---------------------------------------------------------------- atoi

  /** The characters atoi skips at the front (isspace). */
  predicate Space(c: char)
  {
    c == ' ' || c == '\t' || c == '\n' || c == '\r' || c as int == 11 || c as int == 12
  }

  predicate IsDigit(c: char)
  {
    '0' <= c <= '9'
  }

  function SpaceLen(s: string): (n: nat)
    ensures n <= |s|
    ensures forall k :: 0 <= k < n ==> Space(s[k])
    ensures n == |s| || !Space(s[n])
  {
    if |s| == 0 || !Space(s[0]) then 0 else 1 + SpaceLen(s[1..])
  }

  function DigitLen(s: string): (n: nat)
    ensures n <= |s|
    ensures forall k :: 0 <= k < n ==> IsDigit(s[k])
    ensures n == |s| || !IsDigit(s[n])
  {
    if |s| == 0 || !IsDigit(s[0]) then 0 else 1 + DigitLen(s[1..])
  }

  /** The number a string of decimal digits spells. */
  function Value(ds: string): nat
    requires forall k :: 0 <= k < |ds| ==> IsDigit(ds[k])
  {
    if |ds| == 0 then 0 else 10 * Value(ds[..|ds| - 1]) + DigitOf(ds[|ds| - 1])
  }

  function DigitOf(c: char): nat
    requires IsDigit(c)
  {
    c as int - '0' as int
  }

  /** The number the leading digits of s spell. */
  function LeadingValue(s: string): nat
  {
    Value(s[..DigitLen(s)])
  }

  /** atoi(s): skip white space, read an optional sign, then as many decimal digits as
      follow. The source's int overflow is not modelled. */
  function Atoi(s: string): int
  {
    var t := s[SpaceLen(s)..];
    if |t| > 0 && t[0] == '-' then -(LeadingValue(t[1..]) as int)
    else if |t| > 0 && t[0] == '+' then LeadingValue(t[1..])
    else LeadingValue(t)
  }

  /** The decimal digits of n. */
  function ShowNat(n: nat): (s: string)
    ensures |s| > 0 && forall k :: 0 <= k < |s| ==> IsDigit(s[k])
  {
    (if n < 10 then [] else ShowNat(n / 10)) + [('0' as int + n % 10) as char]
  }

  /** How an integer is written in the file: an optional minus and its digits. */
  function ShowInt(n: int): (s: string)
    ensures |s| > 0 && (s[0] == '-' || IsDigit(s[0])) && IsDigit(s[|s| - 1])
    ensures forall k :: 0 < k < |s| ==> IsDigit(s[k])
  {
    if n < 0 then ['-'] + ShowNat(-n) else ShowNat(n)
  }

  lemma {:induction false} ValueShowNat(n: nat)
    ensures Value(ShowNat(n)) == n
  {
    var s := ShowNat(n);
    assert s[..|s| - 1] == if n < 10 then [] else ShowNat(n / 10);
    if n >= 10 {
      ValueShowNat(n / 10);
    }
  }

  /** The digits of n read back, whatever non-digit follows them. */
  lemma LeadingValueShowNat(n: nat, rest: string)
    requires |rest| == 0 || !IsDigit(rest[0])
    ensures LeadingValue(ShowNat(n) + rest) == n
  {
    var s := ShowNat(n) + rest;
    assert DigitLen(s) == |ShowNat(n)|;
    assert s[..|ShowNat(n)|] == ShowNat(n);
    ValueShowNat(n);
  }

  /** atoi reads back what ShowInt writes, whatever non-digit follows. */
  lemma AtoiShowInt(n: int, rest: string)
    requires |rest| == 0 || !IsDigit(rest[0])
    ensures Atoi(ShowInt(n) + rest) == n
  {
    if n < 0 {
      AtoiShowNegative(-n, rest);
    } else {
      AtoiShowNat(n, rest);
    }
  }

  lemma AtoiShowNegative(m: nat, rest: string)
    requires m > 0 && (|rest| == 0 || !IsDigit(rest[0]))
    ensures Atoi(ShowInt(-(m as int)) + rest) == -(m as int)
  {
    var s := ShowNat(m) + rest;
    assert ShowInt(-(m as int)) + rest == ['-'] + s;
    AtoiSign(s);
    LeadingValueShowNat(m, rest);
  }

  lemma AtoiShowNat(n: nat, rest: string)
    requires |rest| == 0 || !IsDigit(rest[0])
    ensures Atoi(ShowInt(n) + rest) == n
  {
    var s := ShowNat(n) + rest;
    assert IsDigit(s[0]);
    AtoiUnsigned(s);
    LeadingValueShowNat(n, rest);
  }

  /** A minus sign in front negates. */
  lemma AtoiSign(s: string)
    ensures Atoi(['-'] + s) == -(LeadingValue(s) as int)
  {
    var t := ['-'] + s;
    assert SpaceLen(t) == 0;
    assert t[0..] == t && t[1..] == s;
  }

  /** Text starting with a digit is read from its first character. */
  lemma AtoiUnsigned(s: string)
    requires |s| > 0 && IsDigit(s[0])
    ensures Atoi(s) == LeadingValue(s)
  {
    assert SpaceLen(s) == 0;
    assert s[0..] == s;
  }

  // ---------------------------------------------------------------- one line

  /** The entry load_ini makes of one line read by fgets, or None when it skips the line:
      the line is trimmed; empty lines and '#' comments are skipped; the text before the
      first '=' (taken verbatim, at most 63 characters) names the shape; the first '[' and
      the first ']' after the '=' must both exist, in that order, and what lies between
      them (at most 255 characters) holds the fields. */
  function LineEntry(line: string): Option<ShapeConfig>
  {
    var p := Trimmed(CText(line));
    if |p| == 0 || p[0] == '#' then None
    else
      match Find(p, '=', 0)
      case None => None
      case Some(e) =>
        var lb, rb := Find(p, '[', e), Find(p, ']', e);
        if lb.None? || rb.None? || rb.value < lb.value then None
        else FieldsEntry(Take(p[..e], 63), Take(p[lb.value + 1..rb.value], 255))
  }

  /** The second half of the line logic: strtok must hand out three fields; each is
      trimmed and unquoted; shape, colour and position must all be known names (up to
      case) and the screen is atoi of the third field. */
  function FieldsEntry(lhs: string, inside: string): Option<ShapeConfig>
  {
    var toks := Tokens(inside);
    if |toks| < 3 then None
    else
      var a, b, c := Unquote(Trimmed(toks[0])), Unquote(Trimmed(toks[1])), Unquote(Trimmed(toks[2]));
      var sh, co, po := Lookup(lhs, ShapeNames), Lookup(a, ColorNames), Lookup(b, PosNames);
      if sh < 0 || co < 0 || po < 0 then None
      else Some(ShapeConfig(ShapeAt(sh), ColorAt(co), AnchorAt(po), Atoi(c)))
  }

  /** The body of load_ini's read loop for one line, proved equal to LineEntry. LineEntry
      follows the source step by step, so this contract only ties the imperative steps to
      it; what reading a line means is stated about LineEntry by RenderRoundTrip,
      BracketEntry and BlankBeforeEqualsRejected below. */
  method ParseLine(line: string) returns (entry: Option<ShapeConfig>)
    ensures entry == LineEntry(line)
  {
    var text := CText(line);
    var p := Trim(text);
    if |p| == 0 || p[0] == '#' {
      return None;
    }
    var eq := Find(p, '=', 0);
    if eq.None? {
      return None;
    }
    var lhs := Take(p[..eq.value], 63);
    var lb, rb := Find(p, '[', eq.value), Find(p, ']', eq.value);
    if lb.None? || rb.None? || rb.value < lb.value {
      return None;
    }
    var inside := Take(p[lb.value + 1..rb.value], 255);
    PiecesNoNul(text, eq.value, lb.value, rb.value);
    entry := ParseFields(lhs, inside);
  }

  /** The left-hand side and the bracketed text are cut from NUL-free text. */
  lemma PiecesNoNul(text: string, e: nat, l: nat, r: nat)
    requires NoNul(text)
    requires e <= |Trimmed(text)| && l < r <= |Trimmed(text)|
    ensures NoNul(Take(Trimmed(text)[..e], 63)) && NoNul(Take(Trimmed(text)[l + 1..r], 255))
  {
    var p := Trimmed(text);
    TrimmedNoNul(text);
    NoNulPrefix(p, e);
    NoNulTake(p[..e], 63);
    NoNulSlice(p, l + 1, r);
    NoNulTake(p[l + 1..r], 255);
  }

  /** strtok, trim, quote stripping and the three parse_* calls on the bracketed text,
      proved equal to FieldsEntry. As with ParseLine, the meaning of FieldsEntry is stated
      by FieldsRoundTrip and SplitFields below. */
  method ParseFields(lhs: string, inside: string) returns (entry: Option<ShapeConfig>)
    requires NoNul(lhs) && NoNul(inside)
    ensures entry == FieldsEntry(lhs, inside)
  {
    var toks := Tokens(inside);
    if |toks| < 3 {
      return None;
    }
    TokensParts(inside);
    var a := Trim(toks[0]);
    var b := Trim(toks[1]);
    var c := Trim(toks[2]);
    TrimmedNoNul(toks[0]);
    TrimmedNoNul(toks[1]);
    a, b, c := Unquote(a), Unquote(b), Unquote(c);
    UnquoteNoNul(Trimmed(toks[0]));
    UnquoteNoNul(Trimmed(toks[1]));
    NamesAreWords();
    var sh := ParseIndex(lhs, ShapeNames);
    var co := ParseIndex(a, ColorNames);
    var po := ParseIndex(b, PosNames);
    if sh < 0 || co < 0 || po < 0 {
      return None;
    }
    return Some(ShapeConfig(ShapeAt(sh), ColorAt(co), AnchorAt(po), Atoi(c)));
  }

  // ---------------------------------------------------------------- the names

  /** A name of the tables: capitals and dashes. */
  predicate Word(w: string)
  {
    |w| > 0 && forall k :: 0 <= k < |w| ==> 'A' <= w[k] <= 'Z' || w[k] == '-'
  }

  /** A table of distinct words. */
  predicate WordTable(names: seq<string>)
  {
    (forall i :: 0 <= i < |names| ==> Word(names[i]))
    && forall i, j :: 0 <= i < j < |names| ==> names[i] != names[j]
  }

  /** The three name tables are tables of distinct words, and hold no NUL. */
  lemma NamesAreWords()
    ensures WordTable(ShapeNames) && WordTable(ColorNames) && WordTable(PosNames)
    ensures forall i :: 0 <= i < |ShapeNames| ==> NoNul(ShapeNames[i])
    ensures forall i :: 0 <= i < |ColorNames| ==> NoNul(ColorNames[i])
    ensures forall i :: 0 <= i < |PosNames| ==> NoNul(PosNames[i])
  {
    ShapeTable();
    ColorTable();
    PosTable();
  }

  lemma ShapeTable()
    ensures WordTable(ShapeNames)
  {
  }

  lemma ColorTable()
    ensures WordTable(ColorNames)
  {
  }

  lemma PosTable()
    ensures WordTable(PosNames)
  {
  }

  /** Up to case, two words are equal only when they are the same word. */
  lemma WordsSameUpper(a: string, b: string)
    requires Word(a) && Word(b)
    ensures SameUpper(a, b) <==> a == b
  {
    if SameUpper(a, b) {
      forall k | 0 <= k < |a|
        ensures a[k] == b[k]
      {
        assert Upper(a[k]) == a[k] && Upper(b[k]) == b[k];
      }
    }
  }

  /** Each name of a table is found at its own index. */
  lemma LookupOwnName(names: seq<string>, i: nat)
    requires WordTable(names) && i < |names|
    ensures Lookup(names[i], names) == i
  {
    WordsSameUpper(names[i], names[i]);
    forall j | 0 <= j < i
      ensures !SameUpper(names[i], names[j])
    {
      WordsSameUpper(names[i], names[j]);
    }
  }

  /** Every kind, colour and anchor is found under its own name. */
  lemma NamesRoundTrip(k: ShapeKind, c: ColorKind, a: Anchor)
    ensures Lookup(ShapeNames[k.Index()], ShapeNames) == k.Index()
    ensures Lookup(ColorNames[c.Index()], ColorNames) == c.Index()
    ensures Lookup(PosNames[a.Index()], PosNames) == a.Index()
  {
    NamesAreWords();
    LookupOwnName(ShapeNames, k.Index());
    LookupOwnName(ColorNames, c.Index());
    LookupOwnName(PosNames, a.Index());
  }

  /** Reading an enumeration back from its index gives the same value. */
  lemma IndexInjective(k: ShapeKind, c: ColorKind, a: Anchor)
    ensures ShapeAt(k.Index()) == k && ColorAt(c.Index()) == c && AnchorAt(a.Index()) == a
  {
  }

  // ---------------------------------------------------------------- round trip

  /** The bracketed fields of an entry as a configuration file writes them. */
  function RenderFields(c: ShapeConfig): string
  {
    ColorNames[c.color.Index()] + ", " + PosNames[c.pos.Index()] + ", " + ShowInt(c.screen)
  }

  /** An entry as a configuration file line: SHAPE=[COLOR, POSITION, SCREEN]. */
  function Render(c: ShapeConfig): string
  {
    ShapeNames[c.shape.Index()] + "=[" + RenderFields(c) + "]"
  }

  /** Text already free of what trim removes is kept whole. */
  lemma TrimKeeps(w: string)
    requires |w| > 0 && !Lead(w[0]) && !Trail(w[|w| - 1])
    ensures Trimmed(w) == w
  {
    TrimCutUnique(w, 0, |w|);
    assert w[0..|w|] == w;
  }

  /** One blank in front of such text is trimmed off. */
  lemma TrimBlank(w: string)
    requires |w| > 0 && !Lead(w[0]) && !Trail(w[|w| - 1])
    ensures Trimmed([' '] + w) == w
  {
    var s := [' '] + w;
    TrimCutUnique(s, 1, |s|);
    assert s[1..|s|] == w;
  }

  /** Characters of a rendered field list: no NUL and no ']'. */
  predicate Plain(f: string)
  {
    forall k :: 0 <= k < |f| ==> f[k] != ']' && f[k] != '\0'
  }

  lemma PlainFields(col: string, pos: string, n: int)
    requires Word(col) && Word(pos)
    ensures Plain(col + ", " + pos + ", " + ShowInt(n))
  {
  }

  /** strtok cuts "COL, POS, N" into COL, " POS" and " N". */
  lemma TokensOfFields(col: string, pos: string, n: int)
    requires Word(col) && Word(pos)
    ensures Tokens(col + ", " + pos + ", " + ShowInt(n)) == [col, [' '] + pos, [' '] + ShowInt(n)]
  {
    var num := ShowInt(n);
    var b, m := [' '] + pos, [' '] + num;
    assert Field(col) && Field(b) && Field(m);
    assert col + ", " + pos + ", " + num == col + [','] + (b + [','] + m);
    TokensCons(col, b + [','] + m);
    TokensCons(b, m);
    TokensSingle(m);
  }

  /** Trim and the quote strip give a word back, with or without a blank in front. */
  lemma CleanWord(w: string)
    requires Word(w)
    ensures Unquote(Trimmed(w)) == w && Unquote(Trimmed([' '] + w)) == w
  {
    TrimKeeps(w);
    TrimBlank(w);
    UnquoteRoundTrip(w);
  }

  /** Trim and the quote strip give a written number back from behind its blank. */
  lemma CleanNumber(n: int)
    ensures Unquote(Trimmed([' '] + ShowInt(n))) == ShowInt(n)
  {
    TrimBlank(ShowInt(n));
    UnquoteRoundTrip(ShowInt(n));
  }

  /** strtok, trim and the quote strip take "COL, POS, N" apart into COL, POS and N. */
  lemma SplitFields(col: string, pos: string, n: int)
    requires Word(col) && Word(pos)
    ensures var toks := Tokens(col + ", " + pos + ", " + ShowInt(n));
      |toks| == 3 && Unquote(Trimmed(toks[0])) == col && Unquote(Trimmed(toks[1])) == pos
      && Unquote(Trimmed(toks[2])) == ShowInt(n)
  {
    TokensOfFields(col, pos, n);
    CleanWord(col);
    CleanWord(pos);
    CleanNumber(n);
  }

  /** The rendered fields come back as the entry's colour, position and screen. */
  lemma FieldsRoundTrip(c: ShapeConfig, lhs: string)
    requires Lookup(lhs, ShapeNames) == c.shape.Index()
    ensures FieldsEntry(lhs, RenderFields(c)) == Some(c)
  {
    var col, pos := ColorNames[c.color.Index()], PosNames[c.pos.Index()];
    ColorTable();
    PosTable();
    SplitFields(col, pos, c.screen);
    NamesRoundTrip(c.shape, c.color, c.pos);
    IndexInjective(c.shape, c.color, c.pos);
    AtoiShowInt(c.screen, []);
    assert ShowInt(c.screen) + [] == ShowInt(c.screen);
  }

  /** Text that can stand before the '=' of a line trim keeps whole: no NUL, no '=',
      '[' or ']', and neither a blank nor a '#' at the front. */
  predicate Key(name: string)
  {
    |name| > 0 && !Lead(name[0]) && name[0] != '#'
    && forall k :: 0 <= k < |name| ==> name[k] != '=' && name[k] != '[' && name[k] != ']' && name[k] != '\0'
  }

  /** strchr finds the first occurrence. */
  lemma FindFirst(s: string, c: char, from: nat, i: nat)
    requires from <= i < |s| && s[i] == c
    requires forall k :: from <= k < i ==> s[k] != c
    ensures Find(s, c, from) == Some(i)
  {
  }

  /** The line NAME=[F] with its punctuation in place. */
  function BracketText(name: string, f: string): string
  {
    name + "=[" + f + "]"
  }

  /** Where the characters of NAME=[F] come from. */
  lemma BracketChars(name: string, f: string)
    ensures var s := BracketText(name, f);
      |s| == |name| + |f| + 3 && s[|name|] == '=' && s[|name| + 1] == '[' && s[|s| - 1] == ']'
      && (forall k :: 0 <= k < |name| ==> s[k] == name[k])
      && (forall k :: |name| + 2 <= k < |s| - 1 ==> s[k] == f[k - |name| - 2])
      && s[..|name|] == name && s[|name| + 2..|s| - 1] == f
  {
  }

  /** In NAME=[F] with a key for NAME and plain F the first '=' follows the name, and the
      first '[' and ']' after it enclose F. */
  lemma BracketFinds(name: string, f: string)
    requires Key(name) && Plain(f)
    ensures var s := BracketText(name, f);
      Find(s, '=', 0) == Some(|name|)
      && Find(s, '[', |name|) == Some(|name| + 1)
      && Find(s, ']', |name|) == Some(|s| - 1)
  {
    var s := BracketText(name, f);
    BracketChars(name, f);
    FindFirst(s, '=', 0, |name|);
    FindFirst(s, '[', |name|, |name| + 1);
    FindFirst(s, ']', |name|, |s| - 1);
  }

  /** NAME=[F] holds no NUL and nothing trim would cut. */
  lemma BracketClean(name: string, f: string)
    requires Key(name) && Plain(f)
    ensures Trimmed(CText(BracketText(name, f))) == BracketText(name, f)
  {
    var s := BracketText(name, f);
    BracketChars(name, f);
    assert NoNul(s);
    assert CText(s) == s;
    TrimKeeps(s);
  }

  /** A line NAME=[F] with a key for NAME and plain F: no NUL, nothing for trim to cut,
      the first '=' right after the name, and the first '[' and ']' after it around F. */
  lemma BracketLine(name: string, f: string)
    requires Key(name) && Plain(f)
    ensures var s := name + "=[" + f + "]";
      Trimmed(CText(s)) == s
      && Find(s, '=', 0) == Some(|name|)
      && Find(s, '[', |name|) == Some(|name| + 1)
      && Find(s, ']', |name|) == Some(|s| - 1)
      && s[..|name|] == name && s[|name| + 2..|s| - 1] == f
  {
    BracketChars(name, f);
    BracketFinds(name, f);
    BracketClean(name, f);
  }

  /** A line NAME=[F] hands NAME and F on to the field logic whole. */
  lemma BracketEntry(name: string, f: string)
    requires Key(name) && Plain(f) && |name| <= 63 && |f| <= 255
    ensures LineEntry(name + "=[" + f + "]") == FieldsEntry(name, f)
  {
    BracketLine(name, f);
  }

  /** Parsing a rendered line gives the entry back, for every entry whose fields fit the
      255-character buffer. */
  lemma RenderRoundTrip(c: ShapeConfig)
    requires |RenderFields(c)| <= 255
    ensures LineEntry(Render(c)) == Some(c)
  {
    var name := ShapeNames[c.shape.Index()];
    var f := RenderFields(c);
    ShapeTable();
    ColorTable();
    PosTable();
    PlainFields(ColorNames[c.color.Index()], PosNames[c.pos.Index()], c.screen);
    assert |name| <= 63 && Key(name);
    BracketEntry(name, f);
    NamesRoundTrip(c.shape, c.color, c.pos);
    FieldsRoundTrip(c, name);
  }

  /** No name of a table matches text holding a blank. */
  lemma BlankNotAName(s: string, names: seq<string>, k: nat)
    requires WordTable(names) && k < |s| && s[k] == ' '
    ensures Lookup(s, names) == -1
  {
    forall j | 0 <= j < |names|
      ensures !SameUpper(s, names[j])
    {
      assert Word(names[j]);
      if |names[j]| == |s| {
        assert Upper(names[j][k]) != ' ';
      }
    }
  }

  /** The text before '=' is taken verbatim: a blank between the shape name and the '='
      makes load_ini skip a line it would otherwise accept. */
  lemma BlankBeforeEqualsRejected(c: ShapeConfig)
    requires |RenderFields(c)| <= 255
    ensures LineEntry(ShapeNames[c.shape.Index()] + " " + "=[" + RenderFields(c) + "]") == None
    ensures LineEntry(Render(c)) == Some(c)
  {
    var name := ShapeNames[c.shape.Index()] + " ";
    var f := RenderFields(c);
    ShapeTable();
    ColorTable();
    PosTable();
    PlainFields(ColorNames[c.color.Index()], PosNames[c.pos.Index()], c.screen);
    assert |name| <= 63 && Key(name);
    BracketEntry(name, f);
    BlankNotAName(name, ShapeNames, |name| - 1);
    RenderRoundTrip(c);
  }

  // ---------------------------------------------------------------- the file

  /** The results of a line parser on each line, line by line. */
  function Parsed(parse: string -> Option<ShapeConfig>, lines: seq<string>): (r: seq<Option<ShapeConfig>>)
    ensures |r| == |lines|
  {
    if |lines| == 0 then [] else Parsed(parse, lines[..|lines| - 1]) + [parse(lines[|lines| - 1])]
  }

  /** Line i yields result i. */
  lemma {:induction false} ParsedAt(parse: string -> Option<ShapeConfig>, lines: seq<string>, i: nat)
    requires i < |lines|
    ensures Parsed(parse, lines)[i] == parse(lines[i])
  {
    var n := |lines| - 1;
    if i < n {
      ParsedAt(parse, lines[..n], i);
    }
  }

  /** Parsing a file in two pieces parses each piece. */
  lemma {:induction false} ParsedAppend(parse: string -> Option<ShapeConfig>, a: seq<string>, b: seq<string>)
    ensures Parsed(parse, a + b) == Parsed(parse, a) + Parsed(parse, b)
    decreases |b|
  {
    if |b| == 0 {
      assert a + b == a;
    } else {
      var n := |b| - 1;
      assert (a + b)[..|a + b| - 1] == a + b[..n];
      ParsedAppend(parse, a, b[..n]);
    }
  }

  /** The entries of a list of line results, in line order. */
  function Collect(rs: seq<Option<ShapeConfig>>): seq<ShapeConfig>
  {
    if |rs| == 0 then []
    else Collect(rs[..|rs| - 1]) + Yield(rs[|rs| - 1])
  }

  /** The entries load_ini collects from the lines of a file. */
  function Entries(lines: seq<string>): seq<ShapeConfig>
  {
    Collect(Parsed(LineEntry, lines))
  }

  /** What load_ini returns: the single default entry when the file cannot be opened or
      yields no entry, the entries in line order otherwise. */
  function Loaded(file: Option<seq<string>>): seq<ShapeConfig>
  {
    match file
    case None => [DefaultConfig]
    case Some(lines) => if |Entries(lines)| == 0 then [DefaultConfig] else Entries(lines)
  }

  /** Results one after the other give their entries one after the other. */
  lemma {:induction false} CollectAppend(a: seq<Option<ShapeConfig>>, b: seq<Option<ShapeConfig>>)
    ensures Collect(a + b) == Collect(a) + Collect(b)
    decreases |b|
  {
    if |b| == 0 {
      assert a + b == a;
    } else {
      var n := |b| - 1;
      assert (a + b)[..|a + b| - 1] == a + b[..n];
      assert (a + b)[|a + b| - 1] == b[n];
      CollectAppend(a, b[..n]);
    }
  }

  /** An entry is collected exactly when some result holds it. */
  lemma {:induction false} CollectMembers(rs: seq<Option<ShapeConfig>>, c: ShapeConfig)
    ensures c in Collect(rs) <==> Some(c) in rs
  {
    if |rs| > 0 {
      var n := |rs| - 1;
      CollectMembers(rs[..n], c);
      assert rs == rs[..n] + [rs[n]];
    }
  }

  /** Whatever the line parser: a file read in two pieces yields the entries of the first
      piece, then those of the second. */
  lemma ReadAppend(parse: string -> Option<ShapeConfig>, a: seq<string>, b: seq<string>)
    ensures Collect(Parsed(parse, a + b)) == Collect(Parsed(parse, a)) + Collect(Parsed(parse, b))
  {
    ParsedAppend(parse, a, b);
    CollectAppend(Parsed(parse, a), Parsed(parse, b));
  }

  /** Whatever the line parser: an entry is collected exactly when one of the lines
      yields it. */
  lemma ReadMembers(parse: string -> Option<ShapeConfig>, a: seq<string>, c: ShapeConfig)
    ensures c in Collect(Parsed(parse, a)) <==> exists i :: 0 <= i < |a| && parse(a[i]) == Some(c)
  {
    CollectMembers(Parsed(parse, a), c);
    if Some(c) in Parsed(parse, a) {
      var i :| 0 <= i < |a| && Parsed(parse, a)[i] == Some(c);
      ParsedAt(parse, a, i);
    }
    if exists i :: 0 <= i < |a| && parse(a[i]) == Some(c) {
      var i :| 0 <= i < |a| && parse(a[i]) == Some(c);
      ParsedAt(parse, a, i);
    }
  }

  /** load_ini keeps the order of the lines: the entries of a file are those of its first
      lines followed by those of the rest, and an entry is loaded exactly when some line
      yields it. */
  lemma EntriesInLineOrder(a: seq<string>, b: seq<string>, c: ShapeConfig)
    ensures Entries(a + b) == Entries(a) + Entries(b)
    ensures c in Entries(a) <==> exists i :: 0 <= i < |a| && LineEntry(a[i]) == Some(c)
  {
    ReadAppend(LineEntry, a, b);
    ReadMembers(LineEntry, a, c);
  }

  /** load_ini always returns at least one entry, and returns the default alone exactly
      when the file is missing or no line yields an entry. */
  lemma LoadedShape(file: Option<seq<string>>)
    ensures |Loaded(file)| >= 1
    ensures file.Some? && |Entries(file.value)| > 0 ==> Loaded(file) == Entries(file.value)
    ensures file.None? || |Entries(file.value)| == 0 ==> Loaded(file) == [DefaultConfig]
  {
  }

  /** load_ini on the lines fgets reads (None when fopen fails): the entries of the lines,
      or the default entry alone when there are none. */
  method LoadIni(file: Option<seq<string>>) returns (items: seq<ShapeConfig>)
    ensures items == Loaded(file)
  {
    if file.None? {
      return [DefaultConfig];
    }
    items := ReadEntries(file.value);
    if |items| == 0 {
      items := [DefaultConfig];
    }
  }

  /** The entries a line result adds: its entry, if it has one. */
  function Yield(r: Option<ShapeConfig>): seq<ShapeConfig>
  {
    match r
    case None => []
    case Some(c) => [c]
  }

  /** The read loop of load_ini: each line is parsed and an accepted entry is appended to
      the list. */
  method ReadEntries(lines: seq<string>) returns (items: seq<ShapeConfig>)
    ensures items == Entries(lines)
  {
    items := [];
    var i := 0;
    while i < |lines|
      invariant 0 <= i <= |lines|
      invariant items == Entries(lines[..i])
    {
      var entry := ReadLine(lines, i);
      if entry.Some? {
        items := items + [entry.value];
      }
      i := i + 1;
    }
    assert lines[..i] == lines;
  }

  /** One pass of the read loop: line i is parsed, and its entry, if any, is what the
      entries of the lines so far grow by. */
  method ReadLine(lines: seq<string>, i: nat) returns (entry: Option<ShapeConfig>)
    requires i < |lines|
    ensures Entries(lines[..i + 1]) == Entries(lines[..i]) + Yield(entry)
  {
    entry := ParseLine(lines[i]);
    ReadStep(LineEntry, lines, i, entry);
  }

  /** One more line read appends its entry, if any. */
  lemma ReadStep(parse: string -> Option<ShapeConfig>, lines: seq<string>, i: nat, entry: Option<ShapeConfig>)
    requires i < |lines| && entry == parse(lines[i])
    ensures Collect(Parsed(parse, lines[..i + 1])) == Collect(Parsed(parse, lines[..i])) + Yield(entry)
  {
    assert lines[..i + 1][..i] == lines[..i];
    var rs := Parsed(parse, lines[..i + 1]);
    assert rs[..|rs| - 1] == Parsed(parse, lines[..i]);
  }
}

/**
 * The handful of PHP string built-ins the SELECT generator relies on:
 * `empty()` on a string, `trim`, `strtoupper`, `implode`, and the decimal
 * rendering of an integer when it is concatenated to a string.
 */
module PhpStrings {

  /** The characters PHP's `trim` strips by default: " \t\n\r\0\x0B". */
  predicate IsPhpSpace(c: char)
  {
    c == ' ' || c == '\t' || c == '\n' || c == '\r' || c == '\0' || c == '\U{000B}'
  }

  /** `!empty($s)` for a string: PHP treats both "" and "0" as empty. */
  predicate PhpNonEmpty(s: string)
  {
    s != "" && s != "0"
  }

  /** `ltrim`: drops the leading run of PHP whitespace, and nothing else. */
  function TrimLeft(s: string): (r: string)
    ensures |r| <= |s|
    ensures forall i :: 0 <= i < |s| - |r| ==> IsPhpSpace(s[i])
    ensures r == [] || !IsPhpSpace(r[0])
  {
    if |s| > 0 && IsPhpSpace(s[0]) then TrimLeft(s[1..]) else s
  }

  /** `rtrim`: drops the trailing run of PHP whitespace, and nothing else. */
  function TrimRight(s: string): (r: string)
    ensures |r| <= |s|
    ensures forall i :: |r| <= i < |s| ==> IsPhpSpace(s[i])
    ensures r == [] || !IsPhpSpace(r[|r| - 1])
  {
    if |s| > 0 && IsPhpSpace(s[|s| - 1]) then TrimRight(s[..|s| - 1]) else s
  }

  /** What `ltrim` keeps is a suffix of its input. */
  lemma {:induction false} TrimLeftIsSuffix(s: string)
    ensures TrimLeft(s) == s[|s| - |TrimLeft(s)|..]
  {
    if |s| > 0 && IsPhpSpace(s[0]) {
      TrimLeftIsSuffix(s[1..]);
    }
  }

  /** What `rtrim` keeps is a prefix of its input. */
  lemma {:induction false} TrimRightIsPrefix(s: string)
    ensures TrimRight(s) == s[..|TrimRight(s)|]
  {
    if |s| > 0 && IsPhpSpace(s[|s| - 1]) {
      TrimRightIsPrefix(s[..|s| - 1]);
    }
  }

  /** `trim`: both ends. The result is no longer than its input and has no
      PHP whitespace at either end. */
  function Trim(s: string): (r: string)
    ensures |r| <= |s|
    ensures r == [] || (!IsPhpSpace(r[0]) && !IsPhpSpace(r[|r| - 1]))
  {
    TrimRightIsPrefix(TrimLeft(s));
    TrimRight(TrimLeft(s))
  }

  /** Whatever `trim` returns has no PHP whitespace at either end, and it is
      the slice of the input that lies between two runs of whitespace. */
  lemma TrimShape(s: string)
    ensures var r := Trim(s);
            r == [] || (!IsPhpSpace(r[0]) && !IsPhpSpace(r[|r| - 1]))
    ensures var r, k := Trim(s), |s| - |TrimLeft(s)|;
            && k + |r| <= |s|
            && r == s[k..k + |r|]
            && (forall i :: 0 <= i < k ==> IsPhpSpace(s[i]))
            && (forall i :: k + |r| <= i < |s| ==> IsPhpSpace(s[i]))
  {
    var l := TrimLeft(s);
    var r := TrimRight(l);
    var k := |s| - |l|;
    TrimLeftIsSuffix(s);
    TrimRightIsPrefix(l);
    assert l == s[k..];
    assert r == l[..|r|];
    SliceOfSuffix(s, k, |r|);
    TrailingRunOfSuffix(s, k, |r|);
  }

  /** Whitespace at the end of a suffix is whitespace at the end of the whole
      string. */
  lemma TrailingRunOfSuffix(s: string, k: nat, n: nat)
    requires k + n <= |s|
    requires forall i :: n <= i < |s[k..]| ==> IsPhpSpace(s[k..][i])
    ensures forall i :: k + n <= i < |s| ==> IsPhpSpace(s[i])
  {
    forall i | k + n <= i < |s|
      ensures IsPhpSpace(s[i])
    {
      assert s[i] == s[k..][i - k];
    }
  }

  lemma SliceOfSuffix(s: string, k: nat, n: nat)
    requires k + n <= |s|
    ensures s[k..][..n] == s[k..k + n]
  {
  }

  /** Trimming twice is trimming once. */
  lemma TrimIdempotent(s: string)
    ensures Trim(Trim(s)) == Trim(s)
  {
    var r := Trim(s);
    TrimShape(s);
    TrimLeftNoop(r);
    TrimRightNoop(r);
  }

  lemma TrimLeftNoop(s: string)
    requires s == [] || !IsPhpSpace(s[0])
    ensures TrimLeft(s) == s
  {
  }

  lemma TrimRightNoop(s: string)
    requires s == [] || !IsPhpSpace(s[|s| - 1])
    ensures TrimRight(s) == s
  {
  }

  /** A string that starts with a non-space character keeps its first `|p|`
      characters through `trim`, provided the prefix `p` ends in one too. */
  lemma {:induction false} TrimKeepsPrefix(p: string, rest: string)
    requires |p| > 0 && !IsPhpSpace(p[0]) && !IsPhpSpace(p[|p| - 1])
    ensures Trim(p + rest) == p + TrimRight(rest)
    ensures |Trim(p + rest)| >= |p| && Trim(p + rest)[..|p|] == p
  {
    TrimLeftNoop(p + rest);
    TrimRightAppend(p, rest);
  }

  /** rtrim of `p + rest` where `p` ends in a non-space character. */
  lemma {:induction false} TrimRightAppend(p: string, rest: string)
    requires |p| > 0 && !IsPhpSpace(p[|p| - 1])
    ensures TrimRight(p + rest) == p + TrimRight(rest)
  {
    if rest == [] {
      assert p + rest == p;
    } else if IsPhpSpace(rest[|rest| - 1]) {
      assert (p + rest)[..|p + rest| - 1] == p + rest[..|rest| - 1];
      TrimRightAppend(p, rest[..|rest| - 1]);
    } else {
    }
  }

  predicate IsAsciiLower(c: char)
  {
    'a' <= c <= 'z'
  }

  /** `strtoupper` on one character: ASCII letters only. */
  function UpperChar(c: char): (u: char)
    ensures !IsAsciiLower(u)
    ensures !IsAsciiLower(c) ==> u == c
    ensures IsPhpSpace(u) <==> IsPhpSpace(c)
  {
    if IsAsciiLower(c) then (c as int - 'a' as int + 'A' as int) as char else c
  }

  /** `strtoupper`: every ASCII lower-case letter is replaced by its
      upper-case form, every other character is left where it was. */
  function Upper(s: string): (r: string)
    ensures |r| == |s|
    ensures forall i {:trigger r[i]} :: 0 <= i < |s| ==> r[i] == UpperChar(s[i])
  {
    if s == [] then [] else [UpperChar(s[0])] + Upper(s[1..])
  }

  /** Upper-casing an upper-cased string changes nothing. */
  lemma UpperIdempotent(s: string)
    ensures Upper(Upper(s)) == Upper(s)
  {
    var u := Upper(s);
    assert forall i :: 0 <= i < |u| ==> Upper(u)[i] == u[i];
  }

  /** Upper-casing a string without lower-case ASCII letters changes nothing. */
  lemma UpperNoop(s: string)
    requires forall i :: 0 <= i < |s| ==> !IsAsciiLower(s[i])
    ensures Upper(s) == s
  {
  }

  /** Trimming never introduces a lower-case letter. */
  lemma TrimNoLower(s: string)
    requires forall i :: 0 <= i < |s| ==> !IsAsciiLower(s[i])
    ensures forall i :: 0 <= i < |Trim(s)| ==> !IsAsciiLower(Trim(s)[i])
  {
    TrimShape(s);
  }

  /** Upper-casing and trimming commute, because upper-casing maps PHP
      whitespace to itself and nothing else to whitespace. */
  lemma UpperTrimCommute(s: string)
    ensures Trim(Upper(s)) == Upper(Trim(s))
  {
    TrimLeftUpper(s);
    TrimRightUpper(TrimLeft(s));
  }

  lemma {:induction false} TrimLeftUpper(s: string)
    ensures TrimLeft(Upper(s)) == Upper(TrimLeft(s))
  {
    if |s| > 0 && IsPhpSpace(s[0]) {
      assert Upper(s)[1..] == Upper(s[1..]);
      TrimLeftUpper(s[1..]);
    }
  }

  lemma {:induction false} TrimRightUpper(s: string)
    ensures TrimRight(Upper(s)) == Upper(TrimRight(s))
  {
    if |s| > 0 && IsPhpSpace(s[|s| - 1]) {
      assert Upper(s)[..|s| - 1] == Upper(s[..|s| - 1]);
      TrimRightUpper(s[..|s| - 1]);
    }
  }

  /** `implode($sep, $parts)`: the parts in order with `sep` between
      neighbours. Written so that the last part is peeled off, which is how the
      generator's loops build the list. */
  function Implode(sep: string, parts: seq<string>): (r: string)
    ensures |parts| > 0 ==> |r| >= |parts[0]| && r[..|parts[0]|] == parts[0]
  {
    if |parts| == 0 then ""
    else if |parts| == 1 then parts[0]
    else Implode(sep, parts[..|parts| - 1]) + sep + parts[|parts| - 1]
  }

  /** Length of an imploded list: every part plus one separator between each
      pair of neighbours. */
  function SumLengths(parts: seq<string>): nat
  {
    if parts == [] then 0 else SumLengths(parts[..|parts| - 1]) + |parts[|parts| - 1]|
  }

  lemma {:induction false} ImplodeLength(sep: string, parts: seq<string>)
    requires |parts| > 0
    ensures |Implode(sep, parts)| == SumLengths(parts) + (|parts| - 1) * |sep|
  {
    if |parts| == 1 {
      assert parts[..0] == [];
    } else {
      ImplodeLength(sep, parts[..|parts| - 1]);
    }
  }

  /** The imploded text is the first part, then the separator, then the rest
      imploded: every part appears, in order, with one separator between
      neighbours. */
  lemma ImplodeCons(sep: string, parts: seq<string>)
    requires |parts| > 1
    ensures Implode(sep, parts) == parts[0] + sep + Implode(sep, parts[1..])
  {
    assert parts == [parts[0]] + parts[1..];
    ImplodeConcat(sep, [parts[0]], parts[1..]);
  }

  /** `implode` splits over a concatenation of two non-empty lists. */
  lemma {:induction false} ImplodeConcat(sep: string, a: seq<string>, b: seq<string>)
    requires |a| > 0 && |b| > 0
    ensures Implode(sep, a + b) == Implode(sep, a) + sep + Implode(sep, b)
  {
    if |b| == 1 {
      assert (a + b)[..|a + b| - 1] == a;
    } else {
      var b' := b[..|b| - 1];
      assert (a + b)[..|a + b| - 1] == a + b';
      ImplodeConcat(sep, a, b');
    }
  }

  /** With a non-empty separator, the imploded text is empty only for the empty
      list or a list holding one empty string. */
  lemma {:induction false} ImplodeEmpty(sep: string, parts: seq<string>)
    requires sep != ""
    ensures Implode(sep, parts) == "" <==> parts == [] || parts == [""]
  {
    if |parts| == 1 {
      assert parts == [parts[0]];
    }
  }

  /** The parts one after the other, with nothing between them. */
  function Concat(parts: seq<string>): (r: string)
    ensures |r| == SumLengths(parts)
  {
    if parts == [] then "" else Concat(parts[..|parts| - 1]) + parts[|parts| - 1]
  }

  /** Concatenating two lists of parts concatenates their texts. */
  lemma {:induction false} ConcatAppend(a: seq<string>, b: seq<string>)
    ensures Concat(a + b) == Concat(a) + Concat(b)
  {
    if b == [] {
      assert a + b == a;
    } else {
      var b' := b[..|b| - 1];
      assert (a + b)[..|a + b| - 1] == a + b';
      ConcatAppend(a, b');
    }
  }

  predicate IsDigit(c: char)
  {
    '0' <= c <= '9'
  }

  predicate AllDigits(s: string)
  {
    forall i :: 0 <= i < |s| ==> IsDigit(s[i])
  }

  function DigitChar(d: nat): (c: char)
    requires d < 10
    ensures IsDigit(c)
  {
    (d + '0' as int) as char
  }

  function DigitValue(c: char): (d: nat)
    requires IsDigit(c)
    ensures d < 10 && DigitChar(d) == c
  {
    c as int - '0' as int
  }

  /** The decimal text PHP produces when a non-negative integer is
      concatenated to a string: digits only, no leading zero. */
  function NatToString(n: nat): (r: string)
    ensures |r| >= 1 && AllDigits(r)
    ensures |r| > 1 ==> r[0] != '0'
  {
    if n < 10 then [DigitChar(n)] else NatToString(n / 10) + [DigitChar(n % 10)]
  }

  /** The value of a string of decimal digits. */
  function ParseNat(s: string): nat
    requires AllDigits(s)
  {
    if s == [] then 0 else 10 * ParseNat(s[..|s| - 1]) + DigitValue(s[|s| - 1])
  }

  /** Reading back the rendered digits gives the number that was rendered. */
  lemma {:induction false} ParseNatToString(n: nat)
    ensures ParseNat(NatToString(n)) == n
  {
    if n < 10 {
      assert [DigitChar(n)][..0] == [];
    } else {
      var s := NatToString(n);
      assert s[..|s| - 1] == NatToString(n / 10);
      ParseNatToString(n / 10);
    }
  }

  /** Different numbers render differently. */
  lemma NatToStringInjective(m: nat, n: nat)
    requires NatToString(m) == NatToString(n)
    ensures m == n
  {
    ParseNatToString(m);
    ParseNatToString(n);
  }
}

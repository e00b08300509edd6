/**
 The parts of Python's semantics the receipt scanner relies on: its
 exceptions, the value-or-`None` convention, a file system seen as a map,
 and the `str` operations `find`, `rfind`, slicing with negative bounds,
 `strip`, `lower`, `startswith`/`endswith` and `int(...)`.
 */
module Py {

  /** A value or Python's `None`. */
  datatype Option<+T> = None | Some(value: T)

  /** The exceptions the modelled code raises or lets escape. `Raised` stands
      for an exception from a component outside the model (the network, a
      foreign library), named by its description. */
  datatype Error =
    | KeyError(key: string)
    | TypeError
    | ValueError
    | IndexError
    | FileNotFoundError
    | OSError
    | JsonDecodeError
    | UnicodeDecodeError
    | UnboundLocalError
    | Raised(what: string)

  /** The outcome of a Python call: a returned value or a raised exception. */
  datatype Result<+T> = Ok(value: T) | Err(error: Error) {

    /** An exception propagates through `:-` unchanged. */
    predicate IsFailure() {
      Err?
    }

    function PropagateFailure<U>(): Result<U>
      requires Err?
    {
      Err(error)
    }

    function Extract(): T
      requires Ok?
    {
      value
    }
  }

  /** What `open(path).read()` meets on disk: text; bytes that do not
      decode in the locale's encoding (`UnicodeDecodeError`, a kind of
      `ValueError`); or a file the system refuses to read (an `OSError`,
      such as a directory or a file without read permission). */
  datatype FileState = Readable(content: string) | Undecodable | Unreadable

  /** Paths absent from the map do not exist. */
  type FileSystem = map<string, FileState>

  // ---------------------------------------------------------------------
  // Searching

  /** `s.find(c)`: the first index of `c` in `s`, or -1. */
  function Find(s: string, c: char): (r: int)
    ensures -1 <= r < |s|
    ensures r == -1 <==> c !in s
    ensures r >= 0 ==> s[r] == c && c !in s[..r]
  {
    if |s| == 0 then -1
    else if s[0] == c then 0
    else
      var k := Find(s[1..], c);
      FindStep(s, c, k);
      if k == -1 then -1 else k + 1
  }

  lemma {:induction false} FindStep(s: string, c: char, k: int)
    requires |s| > 0 && s[0] != c
    requires -1 <= k < |s| - 1
    requires k == -1 <==> c !in s[1..]
    requires k >= 0 ==> s[1..][k] == c && c !in s[1..][..k]
    ensures k == -1 <==> c !in s
    ensures k >= 0 ==> s[k + 1] == c && c !in s[..k + 1]
  {
    assert s == [s[0]] + s[1..];
    if k >= 0 {
      assert s[..k + 1] == [s[0]] + s[1..][..k];
    }
  }

  /** `s.rfind(c)`: the last index of `c` in `s`, or -1. */
  function RFind(s: string, c: char): (r: int)
    ensures -1 <= r < |s|
    ensures r == -1 <==> c !in s
    ensures r >= 0 ==> s[r] == c && c !in s[r + 1..]
  {
    if |s| == 0 then -1
    else if s[|s| - 1] == c then |s| - 1
    else
      var k := RFind(s[..|s| - 1], c);
      RFindStep(s, c, k);
      k
  }

  /** `find` reports the first occurrence. */
  lemma {:induction false} FindIs(s: string, c: char, i: nat)
    requires i < |s| && s[i] == c && c !in s[..i]
    ensures Find(s, c) == i
  {
  }

  /** `rfind` reports the last occurrence. */
  lemma {:induction false} RFindIs(s: string, c: char, j: nat)
    requires j < |s| && s[j] == c && c !in s[j + 1..]
    ensures RFind(s, c) == j
  {
  }

  lemma {:induction false} RFindStep(s: string, c: char, k: int)
    requires |s| > 0 && s[|s| - 1] != c
    requires -1 <= k < |s| - 1
    requires k == -1 <==> c !in s[..|s| - 1]
    requires k >= 0 ==> s[..|s| - 1][k] == c && c !in s[..|s| - 1][k + 1..]
    ensures k == -1 <==> c !in s
    ensures k >= 0 ==> s[k] == c && c !in s[k + 1..]
  {
    if k >= 0 {
      RFindStepFound(s, c, k);
    } else {
      RFindStepAbsent(s, c);
    }
  }

  /** An occurrence in the front part is still the last one once a
      different character is appended. */
  lemma {:induction false} RFindStepFound(s: string, c: char, k: nat)
    requires |s| > 0 && s[|s| - 1] != c && k < |s| - 1
    requires s[..|s| - 1][k] == c && c !in s[..|s| - 1][k + 1..]
    ensures s[k] == c && c !in s[k + 1..]
  {
    var init, last := s[..|s| - 1], s[|s| - 1];
    assert s[k] == init[k];
    assert s[k + 1..] == init[k + 1..] + [last];
  }

  /** Appending a different character to a string without `c` keeps it
      without `c`. */
  lemma {:induction false} RFindStepAbsent(s: string, c: char)
    requires |s| > 0 && s[|s| - 1] != c
    requires c !in s[..|s| - 1]
    ensures c !in s
  {
    var init := s[..|s| - 1];
    forall i | 0 <= i < |s| ensures s[i] != c {
      if i < |init| {
        assert s[i] == init[i];
      }
    }
  }

  // ---------------------------------------------------------------------
  // Slicing

  /** How Python normalises a slice bound `i` against a string of length
      `len`: a negative bound counts from the end, and the result is clamped
      into `[0, len]`. */
  function SliceBound(len: nat, i: int): (k: nat)
    ensures k <= len
  {
    if i < 0 then (if len + i < 0 then 0 else len + i)
    else if i > len then len
    else i
  }

  /** `s[i:]`: a suffix of `s`, which drops the first `i` characters when
      `i` is not negative and keeps the last `-i` when it is, never more
      than there are. */
  function SliceFrom(s: string, i: int): (r: string)
    ensures |r| <= |s| && r == s[|s| - |r|..]
    ensures i >= 0 ==> |r| == (if i >= |s| then 0 else |s| - i)
    ensures i < 0 ==> |r| == (if -i >= |s| then |s| else -i)
  {
    s[SliceBound(|s|, i)..]
  }

  /** `s[:j]`: a prefix of `s`, which keeps the first `j` characters when
      `j` is not negative and drops the last `-j` when it is, never more
      than there are. */
  function SliceTo(s: string, j: int): (r: string)
    ensures |r| <= |s| && r == s[..|r|]
    ensures j >= 0 ==> |r| == (if j >= |s| then |s| else j)
    ensures j < 0 ==> |r| == (if -j >= |s| then 0 else |s| + j)
  {
    s[..SliceBound(|s|, j)]
  }

  /** `s.startswith(prefix)` */
  predicate StartsWith(s: string, prefix: string) {
    |prefix| <= |s| && s[..|prefix|] == prefix
  }

  /** `s.endswith(suffix)` */
  predicate EndsWith(s: string, suffix: string) {
    |suffix| <= |s| && s[|s| - |suffix|..] == suffix
  }

  // ---------------------------------------------------------------------
  // Whitespace and `strip`

  /** The two whitespace sets the modelled code meets. `StrSpace` is what
      `str.isspace` accepts and `str.strip()` cuts. `IntSpace` is what
      `int(...)` skips around a number: CPython passes ASCII characters
      through unchanged and then skips only the C-locale spaces, so the four
      separators U+001C to U+001F stay and make the text invalid. */
  datatype Spaces = StrSpace | IntSpace

  predicate IsSpace(ws: Spaces, c: char) {
    var n := c as int;
    (0x09 <= n <= 0x0D) || (ws == StrSpace && 0x1C <= n <= 0x1F) || n == 0x20 || n == 0x85 || n == 0xA0
    || n == 0x1680 || (0x2000 <= n <= 0x200A) || n == 0x2028 || n == 0x2029
    || n == 0x202F || n == 0x205F || n == 0x3000
  }

  predicate AllSpace(ws: Spaces, s: string) {
    forall i :: 0 <= i < |s| ==> IsSpace(ws, s[i])
  }

  /** Neither end of `s` is whitespace. */
  predicate Trimmed(ws: Spaces, s: string) {
    |s| == 0 || (!IsSpace(ws, s[0]) && !IsSpace(ws, s[|s| - 1]))
  }

  /** `k` is `s` with only whitespace cut from both ends. */
  ghost predicate IsTrimOf(ws: Spaces, k: string, s: string) {
    exists pre, post :: AllSpace(ws, pre) && AllSpace(ws, post) && s == pre + k + post
  }

  /** How many whitespace characters `s` starts with. */
  function LeadingSpace(ws: Spaces, s: string): (n: nat)
    ensures n <= |s|
    ensures forall i :: 0 <= i < n ==> IsSpace(ws, s[i])
    ensures n == |s| || !IsSpace(ws, s[n])
  {
    if |s| > 0 && IsSpace(ws, s[0]) then
      var m := LeadingSpace(ws, s[1..]);
      assert forall i :: 1 <= i <= m ==> s[i] == s[1..][i - 1];
      m + 1
    else 0
  }

  /** How many whitespace characters `s` ends with. */
  function TrailingSpace(ws: Spaces, s: string): (n: nat)
    ensures n <= |s|
    ensures forall i :: |s| - n <= i < |s| ==> IsSpace(ws, s[i])
    ensures n == |s| || !IsSpace(ws, s[|s| - 1 - n])
  {
    if |s| > 0 && IsSpace(ws, s[|s| - 1]) then
      var m := TrailingSpace(ws, s[..|s| - 1]);
      assert forall i :: |s| - 1 - m <= i < |s| - 1 ==> s[i] == s[..|s| - 1][i];
      m + 1
    else 0
  }

  /** The whitespace run at the front is exactly up to the first
      non-whitespace character. */
  lemma {:induction false} LeadingSpaceAt(ws: Spaces, s: string, k: nat)
    requires k <= |s|
    requires forall i :: 0 <= i < k ==> IsSpace(ws, s[i])
    requires k == |s| || !IsSpace(ws, s[k])
    ensures LeadingSpace(ws, s) == k
  {
  }

  /** The whitespace run at the back is exactly down to the last
      non-whitespace character. */
  lemma {:induction false} TrailingSpaceAt(ws: Spaces, s: string, k: nat)
    requires k <= |s|
    requires forall i :: |s| - k <= i < |s| ==> IsSpace(ws, s[i])
    requires k == |s| || !IsSpace(ws, s[|s| - 1 - k])
    ensures TrailingSpace(ws, s) == k
  {
  }

  /** `s.strip()` for `StrSpace`: the result has no whitespace at either
      end, and what was cut away on either side is whitespace only. */
  function Strip(ws: Spaces, s: string): (r: string)
    ensures Trimmed(ws, r)
    ensures IsTrimOf(ws, r, s)
  {
    var n := LeadingSpace(ws, s);
    if n == |s| then
      AllSpaceTrimsToEmpty(ws, s);
      []
    else
      var m := TrailingSpace(ws, s);
      MiddleIsTrim(ws, s, n, m);
      s[n..|s| - m]
  }

  lemma {:induction false} AllSpaceTrimsToEmpty(ws: Spaces, s: string)
    requires forall i :: 0 <= i < |s| ==> IsSpace(ws, s[i])
    ensures Trimmed(ws, []) && IsTrimOf(ws, [], s)
  {
    assert s == s + [] + [];
    assert AllSpace(ws, s) && AllSpace(ws, []);
  }

  /** Between a whitespace prefix ending before a non-whitespace character
      and a whitespace suffix starting after one lies a trim of `s`. */
  lemma {:induction false} MiddleIsTrim(ws: Spaces, s: string, n: nat, m: nat)
    requires n < |s| && m <= |s|
    requires forall i :: 0 <= i < n ==> IsSpace(ws, s[i])
    requires forall i :: |s| - m <= i < |s| ==> IsSpace(ws, s[i])
    requires !IsSpace(ws, s[n])
    requires m == |s| || !IsSpace(ws, s[|s| - 1 - m])
    ensures n < |s| - m
    ensures Trimmed(ws, s[n..|s| - m]) && IsTrimOf(ws, s[n..|s| - m], s)
  {
    var pre, r, post := s[..n], s[n..|s| - m], s[|s| - m..];
    assert s == pre + r + post;
    assert AllSpace(ws, pre) && AllSpace(ws, post);
    assert r[0] == s[n] && r[|r| - 1] == s[|s| - 1 - m];
  }

  /** Stripping recovers any core without edge whitespace from under any
      whitespace padding: the trim of a string is unique. */
  lemma {:induction false} StripPadded(ws: Spaces, pre: string, core: string, post: string)
    requires AllSpace(ws, pre) && AllSpace(ws, post)
    requires Trimmed(ws, core)
    ensures Strip(ws, pre + core + post) == core
  {
    var s := pre + core + post;
    if |core| == 0 {
      assert forall i :: 0 <= i < |s| ==> IsSpace(ws, s[i]) by {
        forall i | 0 <= i < |s| ensures IsSpace(ws, s[i]) {
          if i < |pre| { assert s[i] == pre[i]; } else { assert s[i] == post[i - |pre|]; }
        }
      }
      LeadingSpaceAt(ws, s, |s|);
      assert Strip(ws, s) == [];
    } else {
      assert forall i :: 0 <= i < |pre| ==> s[i] == pre[i];
      assert s[|pre|] == core[0];
      LeadingSpaceAt(ws, s, |pre|);
      assert forall i :: |s| - |post| <= i < |s| ==> s[i] == post[i - (|s| - |post|)];
      assert s[|s| - 1 - |post|] == core[|core| - 1];
      TrailingSpaceAt(ws, s, |post|);
      assert s[|pre|..|s| - |post|] == core;
    }
  }

  /** Stripping twice is stripping once. */
  lemma {:induction false} StripIdempotent(ws: Spaces, s: string)
    ensures Strip(ws, Strip(ws, s)) == Strip(ws, s)
  {
    StripTrimmed(ws, Strip(ws, s));
  }

  // ---------------------------------------------------------------------
  // `lower`

  /** Lower-cases the ASCII letters; every other character is kept. */
  function LowerChar(c: char): char {
    if 'A' <= c <= 'Z' then (c as int + 32) as char else c
  }

  /** `s.lower()`, on the ASCII letters. */
  function Lower(s: string): (r: string)
    ensures |r| == |s|
    ensures forall i :: 0 <= i < |s| ==> r[i] == LowerChar(s[i])
  {
    if |s| == 0 then [] else [LowerChar(s[0])] + Lower(s[1..])
  }

  /** The sixteen case spellings of "true". */
  predicate IsTrueSpelling(s: string) {
    |s| == 4 && (s[0] == 't' || s[0] == 'T') && (s[1] == 'r' || s[1] == 'R')
    && (s[2] == 'u' || s[2] == 'U') && (s[3] == 'e' || s[3] == 'E')
  }

  /** `s.lower() == "true"` holds for exactly the sixteen spellings of
      "true" in any mixture of cases. */
  lemma {:induction false} LowerIsTrueIff(s: string)
    ensures Lower(s) == "true" <==> IsTrueSpelling(s)
  {
    if |s| == 4 {
      var l := Lower(s);
      IsTrueByChars(l);
      assert l[0] == LowerChar(s[0]) && l[1] == LowerChar(s[1]);
      assert l[2] == LowerChar(s[2]) && l[3] == LowerChar(s[3]);
      LowerCharOfLetter(s[0], 't');
      LowerCharOfLetter(s[1], 'r');
      LowerCharOfLetter(s[2], 'u');
      LowerCharOfLetter(s[3], 'e');
    }
  }

  lemma {:induction false} IsTrueByChars(l: string)
    requires |l| == 4
    ensures l == "true" <==> l[0] == 't' && l[1] == 'r' && l[2] == 'u' && l[3] == 'e'
  {
    if l[0] == 't' && l[1] == 'r' && l[2] == 'u' && l[3] == 'e' {
      assert forall i :: 0 <= i < 4 ==> l[i] == "true"[i];
    }
  }

  /** The characters that lower-case to an ASCII letter are that letter and
      its capital. */
  lemma {:induction false} LowerCharOfLetter(c: char, l: char)
    requires 'a' <= l <= 'z'
    ensures LowerChar(c) == l <==> c == l || c as int == l as int - 32
  {
  }

  /** A string ending in a suffix without capitals still ends in it once
      lower-cased. */
  lemma {:induction false} LowerKeepsLowerSuffix(s: string, suffix: string)
    requires EndsWith(s, suffix)
    requires forall i :: 0 <= i < |suffix| ==> !('A' <= suffix[i] <= 'Z')
    ensures EndsWith(Lower(s), suffix)
  {
    var n := |s| - |suffix|;
    forall i | 0 <= i < |suffix| ensures Lower(s)[n..][i] == suffix[i] {
      assert s[n + i] == s[n..][i];
    }
  }

  // ---------------------------------------------------------------------
  // `int(s)` for a decimal string

  predicate IsDigit(c: char) { '0' <= c <= '9' }

  predicate AllDigits(s: string) {
    forall i :: 0 <= i < |s| ==> IsDigit(s[i])
  }

  function DigitValue(c: char): (d: nat)
    requires IsDigit(c)
    ensures d < 10
  {
    c as int - '0' as int
  }

  /** The number written by a run of decimal digits, most significant first. */
  function DigitsValue(ds: string): nat
    requires AllDigits(ds)
  {
    if |ds| == 0 then 0
    else DigitsValue(ds[..|ds| - 1]) * 10 + DigitValue(ds[|ds| - 1])
  }

  /** Python's `digit (["_"] digit)*`: digits, with single underscores
      allowed between two of them. */
  predicate IsDigitGroup(s: string)
    decreases |s|
  {
    && |s| > 0 && IsDigit(s[0])
    && (|s| == 1 || IsDigitGroup(s[1..]) || (s[1] == '_' && IsDigitGroup(s[2..])))
  }

  /** The digits of a digit group, underscores removed. */
  function GroupDigits(s: string): (r: string)
    requires IsDigitGroup(s)
    ensures |r| > 0 && AllDigits(r)
    decreases |s|
  {
    if |s| == 1 then [s[0]]
    else if s[1] == '_' then
      assert !IsDigitGroup(s[1..]) by { assert s[1..][0] == '_'; }
      [s[0]] + GroupDigits(s[2..])
    else [s[0]] + GroupDigits(s[1..])
  }

  /** A run of plain digits is a digit group and keeps all its digits. */
  lemma {:induction false} PlainDigitsGroup(ds: string)
    requires |ds| > 0 && AllDigits(ds)
    ensures IsDigitGroup(ds) && GroupDigits(ds) == ds
    decreases |ds|
  {
    if |ds| > 1 {
      PlainDigitsGroup(ds[1..]);
      assert ds == [ds[0]] + ds[1..];
    }
  }

  /** Splits an optional leading sign off `t`: whether it was a minus, and
      the rest. */
  function SplitSign(t: string): (bool, string)
    requires |t| > 0
  {
    if t[0] == '-' then (true, t[1..])
    else if t[0] == '+' then (false, t[1..])
    else (false, t)
  }

  /** `sys.get_int_max_str_digits()` at its default: `int(...)` refuses a
      decimal string with more digits than this. */
  const MaxStrDigits: nat := 4300

  /** The text `int(...)` accepts once the whitespace around it is gone: an
      optional sign, a digit group, and no more than `MaxStrDigits` digits. */
  predicate IsIntLiteral(t: string) {
    && |t| > 0
    && IsDigitGroup(SplitSign(t).1)
    && |GroupDigits(SplitSign(t).1)| <= MaxStrDigits
  }

  /** `int(s)`: whitespace around the number is skipped, then an optional
      sign and a digit group are read; anything else, and a number of more
      than `MaxStrDigits` digits, raises `ValueError`. */
  function ParseInt(s: string): (r: Result<int>)
    ensures r.Ok? <==> IsIntLiteral(Strip(IntSpace, s))
    ensures r.Err? ==> r.error == ValueError
    ensures r.Ok? ==> var (negative, body) := SplitSign(Strip(IntSpace, s));
      r.value == if negative then 0 - DigitsValue(GroupDigits(body)) else DigitsValue(GroupDigits(body))
  {
    ParseStripped(Strip(IntSpace, s))
  }

  /** `int(...)` once the whitespace is gone. */
  function ParseStripped(t: string): (r: Result<int>)
    ensures r.Err? ==> r.error == ValueError
  {
    if |t| == 0 then Err(ValueError) else ParseSigned(SplitSign(t).0, SplitSign(t).1)
  }

  /** `int(...)` once the sign is split off. */
  function ParseSigned(negative: bool, body: string): (r: Result<int>)
    ensures r.Err? ==> r.error == ValueError
  {
    if !IsDigitGroup(body) || |GroupDigits(body)| > MaxStrDigits then Err(ValueError)
    else
      var n: int := DigitsValue(GroupDigits(body));
      Ok(if negative then -n else n)
  }

  /** The decimal digits of `n`, without leading zeros ("0" for zero). */
  function NatToDigits(n: nat): (ds: string)
    ensures |ds| > 0
    ensures AllDigits(ds)
  {
    if n < 10 then [('0' as int + n) as char]
    else NatToDigits(n / 10) + [('0' as int + n % 10) as char]
  }

  /** `abs(n)` */
  function Abs(n: int): nat {
    if n < 0 then -n else n
  }

  /** `str(n)` */
  function IntToString(n: int): string {
    if n < 0 then "-" + NatToDigits(-n) else NatToDigits(n)
  }

  lemma {:induction false} DigitsRoundTrip(n: nat)
    ensures DigitsValue(NatToDigits(n)) == n
  {
    if n >= 10 {
      var ds := NatToDigits(n);
      assert ds[..|ds| - 1] == NatToDigits(n / 10);
      DigitsRoundTrip(n / 10);
    }
  }

  /** A string with no whitespace at either end is its own strip. */
  lemma {:induction false} StripTrimmed(ws: Spaces, s: string)
    requires Trimmed(ws, s)
    ensures Strip(ws, s) == s
  {
    assert [] + s + [] == s;
    StripPadded(ws, [], s, []);
  }

  lemma {:induction false} SplitSignOfSigned(negative: bool, ds: string, s: string)
    requires |ds| > 0 && AllDigits(ds)
    requires s == (if negative then "-" else "") + ds
    ensures |s| > 0 && SplitSign(s) == (negative, ds)
  {
    if negative { assert s[1..] == ds; } else { assert s == ds; }
  }

  lemma {:induction false} DigitNotSpace(c: char)
    requires IsDigit(c)
    ensures !IsSpace(IntSpace, c)
  {
  }

  /** Plain digits after an optional minus sign have no whitespace at
      either end. */
  lemma {:induction false} SignedDigitsTrimmed(negative: bool, ds: string)
    requires |ds| > 0 && AllDigits(ds)
    ensures Trimmed(IntSpace, (if negative then "-" else "") + ds)
  {
    var s := (if negative then "-" else "") + ds;
    assert s[|s| - 1] == ds[|ds| - 1];
    assert s[0] == '-' || s[0] == ds[0];
    DigitNotSpace(ds[|ds| - 1]);
    DigitNotSpace(ds[0]);
  }

  /** Plain digits, no more than the limit, are read as their value. */
  lemma {:induction false} ParseSignedDigits(negative: bool, ds: string)
    requires |ds| > 0 && AllDigits(ds)
    ensures ParseSigned(negative, ds)
         == if |ds| <= MaxStrDigits then Ok(if negative then 0 - DigitsValue(ds) else DigitsValue(ds))
            else Err(ValueError)
  {
    PlainDigitsGroup(ds);
  }

  /** `int(...)` of an optional minus sign followed by plain digits: their
      value with that sign, or `ValueError` past the digit limit. */
  lemma {:induction false} ParseIntSignedDigits(negative: bool, ds: string)
    requires |ds| > 0 && AllDigits(ds)
    ensures ParseInt((if negative then "-" else "") + ds)
         == if |ds| <= MaxStrDigits then Ok(if negative then 0 - DigitsValue(ds) else DigitsValue(ds))
            else Err(ValueError)
  {
    var s := (if negative then "-" else "") + ds;
    SignedDigitsTrimmed(negative, ds);
    StripTrimmed(IntSpace, s);
    SplitSignOfSigned(negative, ds, s);
    ParseIntBySign(s, negative, ds);
    ParseSignedDigits(negative, ds);
  }

  /** A string with nothing to strip is read by its sign and body. */
  lemma {:induction false} ParseIntBySign(s: string, negative: bool, body: string)
    requires Strip(IntSpace, s) == s && |s| > 0 && SplitSign(s) == (negative, body)
    ensures ParseInt(s) == ParseSigned(negative, body)
  {
  }

  /** `int(str(n)) == n` for every integer of at most `MaxStrDigits`
      digits; a longer one raises `ValueError`. */
  lemma {:induction false} ParseIntOfString(n: int)
    ensures |NatToDigits(Abs(n))| <= MaxStrDigits ==> ParseInt(IntToString(n)) == Ok(n)
    ensures |NatToDigits(Abs(n))| > MaxStrDigits ==> ParseInt(IntToString(n)) == Err(ValueError)
  {
    var ds := NatToDigits(Abs(n));
    if n < 0 {
      assert IntToString(n) == "-" + ds;
    } else {
      assert IntToString(n) == "" + ds;
    }
    ParseIntSignedDigits(n < 0, ds);
    DigitsRoundTrip(Abs(n));
    assert (if n < 0 then 0 - DigitsValue(ds) else DigitsValue(ds)) == n;
  }
}

/** The pieces of Python's string handling that the kernel-file parsers use:
    `startswith`, `endswith`, `split(sep)`, `strip()`, list indexing and
    `int()` on decimal text. */
module Text {
  import opened Errors

  predicate StartsWith(s: string, prefix: string) {
    |prefix| <= |s| && s[..|prefix|] == prefix
  }

  predicate EndsWith(s: string, suffix: string) {
    |suffix| <= |s| && s[|s| - |suffix|..] == suffix
  }

  /** `s.split(sep)` for a non-empty separator: the pieces between the
      non-overlapping occurrences of `sep`, found from left to right. */
  function Split(s: string, sep: string): (parts: seq<string>)
    requires sep != []
    ensures |parts| >= 1
    decreases |s|
  {
    if |s| < |sep| then [s]
    else if s[..|sep|] == sep then [""] + Split(s[|sep|..], sep)
    else
      var rest := Split(s[1..], sep);
      [[s[0]] + rest[0]] + rest[1..]
  }

  /** `sep.join(parts)`, the inverse of Split. */
  function Join(parts: seq<string>, sep: string): string
    requires |parts| >= 1
    decreases |parts|
  {
    if |parts| == 1 then parts[0] else parts[0] + sep + Join(parts[1..], sep)
  }

  /** Joining after growing the first piece grows the joined text. */
  lemma JoinGrowFirst(c: char, rest: seq<string>, sep: string)
    requires |rest| >= 1
    ensures Join([[c] + rest[0]] + rest[1..], sep) == [c] + Join(rest, sep)
  {
    var parts := [[c] + rest[0]] + rest[1..];
    if |rest| > 1 {
      assert parts[1..] == rest[1..];
    }
  }

  /** Joining after an empty first piece starts with the separator. */
  lemma JoinEmptyFirst(rest: seq<string>, sep: string)
    requires |rest| >= 1
    ensures Join([""] + rest, sep) == sep + Join(rest, sep)
  {
    assert ([""] + rest)[1..] == rest;
  }

  /** Splitting loses nothing: joining the pieces back gives the text. */
  lemma {:induction false} SplitJoin(s: string, sep: string)
    requires sep != []
    ensures Join(Split(s, sep), sep) == s
    decreases |s|
  {
    if |s| < |sep| {
    } else if s[..|sep|] == sep {
      SplitJoin(s[|sep|..], sep);
      JoinEmptyFirst(Split(s[|sep|..], sep), sep);
      assert s == sep + s[|sep|..];
    } else {
      SplitJoin(s[1..], sep);
      JoinGrowFirst(s[0], Split(s[1..], sep), sep);
      assert s == [s[0]] + s[1..];
    }
  }

  /** The ASCII characters Python's `str.isspace()` accepts, which
      `strip()` removes. */
  predicate IsSpace(c: char) {
    c == ' ' || ('\t' <= c <= '\r') || ('\U{1C}' <= c <= '\U{1F}')
  }

  /** The white space `int()` skips around its digits: C's `isspace()`,
      which, unlike `str.isspace()`, leaves out U+001C to U+001F. */
  predicate IsIntSpace(c: char) {
    c == ' ' || ('\t' <= c <= '\r')
  }

  /** The text without its leading characters of `space` (`s.lstrip()`
      for `IsSpace`): a suffix that does not start with one, and what it
      drops are such characters, by `TrimStartDrops`. */
  function TrimStart(s: string, space: char -> bool): (r: string)
    ensures |r| <= |s| && r == s[|s| - |r|..]
    ensures r == [] || !space(r[0])
  {
    if s != [] && space(s[0]) then TrimStart(s[1..], space) else s
  }

  /** The text without its trailing characters of `space` (`s.rstrip()`
      for `IsSpace`): a prefix that does not end with one, and what it
      drops are such characters, by `TrimEndDrops`. */
  function TrimEnd(s: string, space: char -> bool): (r: string)
    ensures |r| <= |s| && r == s[..|r|]
    ensures r == [] || !space(r[|r| - 1])
  {
    if s != [] && space(s[|s| - 1]) then TrimEnd(s[..|s| - 1], space) else s
  }

  lemma {:induction false} TrimStartDrops(s: string, space: char -> bool)
    ensures forall k | 0 <= k < |s| - |TrimStart(s, space)| :: space(s[k])
    decreases |s|
  {
    if s != [] && space(s[0]) {
      TrimStartDrops(s[1..], space);
      forall k | 1 <= k < |s| - |TrimStart(s, space)|
        ensures space(s[k])
      {
        assert s[k] == s[1..][k - 1];
      }
    }
  }

  lemma {:induction false} TrimEndDrops(s: string, space: char -> bool)
    ensures forall k | |TrimEnd(s, space)| <= k < |s| :: space(s[k])
    decreases |s|
  {
    if s != [] && space(s[|s| - 1]) {
      TrimEndDrops(s[..|s| - 1], space);
    }
  }

  /** The text without leading and trailing characters of `space`: a part
      of the text that neither starts nor ends with one. */
  function Trim(s: string, space: char -> bool): (r: string)
    ensures |r| <= |s|
    ensures r == [] || (!space(r[0]) && !space(r[|r| - 1]))
  {
    var front := TrimStart(s, space);
    var r := TrimEnd(front, space);
    assert r != [] ==> r[0] == front[0];
    r
  }

  /** `s.strip()`: the text without leading and trailing white space; a
      part of the text that neither starts nor ends with white space. */
  function Strip(s: string): (r: string)
    ensures |r| <= |s|
    ensures r == [] || (!IsSpace(r[0]) && !IsSpace(r[|r| - 1]))
  {
    Trim(s, IsSpace)
  }

  predicate IsDigit(c: char) {
    '0' <= c <= '9'
  }

  predicate AllDigits(s: string) {
    forall k | 0 <= k < |s| :: IsDigit(s[k])
  }

  /** The value of a string of decimal digits, most significant first. */
  function DigitsValue(ds: string): nat
    requires AllDigits(ds)
    decreases |ds|
  {
    if ds == [] then 0
    else DigitsValue(ds[..|ds| - 1]) * 10 + (ds[|ds| - 1] as int - '0' as int)
  }

  /** One or more decimal digits and their value; anything else is None. */
  function ParseDigits(ds: string): Option<int> {
    if ds != [] && AllDigits(ds) then Some(DigitsValue(ds)) else None
  }

  /** Stripped text as `int()` reads it: an optional sign, then digits. */
  function ParseSigned(t: string): Option<int> {
    if t != [] && t[0] == '-' then
      match ParseDigits(t[1..])
      case None => None
      case Some(d) => Some(-d)
    else if t != [] && t[0] == '+' then ParseDigits(t[1..])
    else ParseDigits(t)
  }

  /** `int(s)` on text: optional surrounding white space of the kind
      `int()` skips, an optional sign, then one or more decimal digits;
      anything else is a ValueError. */
  function ParseInt(s: string): Option<int> {
    ParseSigned(Trim(s, IsIntSpace))
  }

  /** `str(n)` for a natural number, the form in which the kernel prints it. */
  function ShowNat(n: nat): (s: string)
    ensures s != [] && AllDigits(s)
  {
    if n < 10 then ['0' + n as char]
    else ShowNat(n / 10) + ['0' + (n % 10) as char]
  }

  /** `str(n)`: a minus sign exactly when n is negative, then digits. */
  function ShowInt(n: int): (s: string)
    ensures s != [] && IsDigit(s[|s| - 1])
    ensures (n < 0) == (s[0] == '-')
    ensures s[0] == '-' || IsDigit(s[0])
    ensures forall k | 0 < k < |s| :: IsDigit(s[k])
  {
    if n < 0 then "-" + ShowNat(-n) else ShowNat(n)
  }

  lemma {:induction false} DigitsValueShowNat(n: nat)
    ensures DigitsValue(ShowNat(n)) == n
  {
    var s := ShowNat(n);
    if n >= 10 {
      DigitsValueShowNat(n / 10);
      assert s[..|s| - 1] == ShowNat(n / 10);
    }
  }

  /** Leading characters of `space` before a text that does not start
      with one are exactly what TrimStart removes. */
  lemma {:induction false} TrimStartPadded(pre: string, x: string, space: char -> bool)
    requires x == [] || !space(x[0])
    requires forall k | 0 <= k < |pre| :: space(pre[k])
    ensures TrimStart(pre + x, space) == x
    decreases |pre|
  {
    if pre == [] {
      assert pre + x == x;
    } else {
      assert (pre + x)[0] == pre[0];
      assert (pre + x)[1..] == pre[1..] + x;
      TrimStartPadded(pre[1..], x, space);
    }
  }

  /** Trailing characters of `space` after a text that does not end with
      one are exactly what TrimEnd removes. */
  lemma {:induction false} TrimEndPadded(x: string, post: string, space: char -> bool)
    requires x == [] || !space(x[|x| - 1])
    requires forall k | 0 <= k < |post| :: space(post[k])
    ensures TrimEnd(x + post, space) == x
    decreases |post|
  {
    if post == [] {
      assert x + post == x;
    } else {
      var s := x + post;
      assert s[|s| - 1] == post[|post| - 1];
      assert s[..|s| - 1] == x + post[..|post| - 1];
      TrimEndPadded(x, post[..|post| - 1], space);
    }
  }

  /** Trimming leaves exactly the text between padding of `space`. */
  lemma TrimPadded(pre: string, x: string, post: string, space: char -> bool)
    requires x != [] && !space(x[0]) && !space(x[|x| - 1])
    requires forall k | 0 <= k < |pre| :: space(pre[k])
    requires forall k | 0 <= k < |post| :: space(post[k])
    ensures Trim(pre + x + post, space) == x
  {
    assert pre + x + post == pre + (x + post);
    assert (x + post)[0] == x[0];
    TrimStartPadded(pre, x + post, space);
    TrimEndPadded(x, post, space);
  }

  /** Stripping leaves exactly the text between white-space padding. */
  lemma StripPadded(pre: string, x: string, post: string)
    requires x != [] && !IsSpace(x[0]) && !IsSpace(x[|x| - 1])
    requires forall k | 0 <= k < |pre| :: IsSpace(pre[k])
    requires forall k | 0 <= k < |post| :: IsSpace(post[k])
    ensures Strip(pre + x + post) == x
  {
    TrimPadded(pre, x, post, IsSpace);
  }

  /** The digits of a natural number read back as it. */
  lemma ShowNatParses(n: nat)
    ensures ParseDigits(ShowNat(n)) == Some(n)
  {
    DigitsValueShowNat(n);
  }

  /** A printed integer, sign included, reads back as itself. */
  lemma ShowIntParsesSigned(n: int)
    ensures ParseSigned(ShowInt(n)) == Some(n)
  {
    var t := ShowInt(n);
    if n < 0 {
      assert t[0] == '-' && t[1..] == ShowNat(-n);
      ShowNatParses(-n);
    } else {
      assert IsDigit(t[0]);
      ShowNatParses(n);
    }
  }

  /** A printed integer between the white space `int()` skips reads back
      as itself. */
  lemma ParseIntPadded(pre: string, n: int, post: string, s: string)
    requires forall k | 0 <= k < |pre| :: IsIntSpace(pre[k])
    requires forall k | 0 <= k < |post| :: IsIntSpace(post[k])
    requires s == pre + ShowInt(n) + post
    ensures ParseInt(s) == Some(n)
  {
    var t := ShowInt(n);
    assert !IsIntSpace(t[0]);
    TrimPadded(pre, t, post, IsIntSpace);
    ShowIntParsesSigned(n);
  }

  /** Every printed integer is read back as itself, whatever white space
      that `int()` skips surrounds it. */
  lemma ParseIntShowInt(pre: string, n: int, post: string)
    requires forall k | 0 <= k < |pre| :: IsIntSpace(pre[k])
    requires forall k | 0 <= k < |post| :: IsIntSpace(post[k])
    ensures ParseInt(pre + ShowInt(n) + post) == Some(n)
  {
    ParseIntPadded(pre, n, post, pre + ShowInt(n) + post);
  }

  /** A text that starts with a character outside `space` keeps it first. */
  lemma TrimKeepsHead(t: string, space: char -> bool)
    requires t != [] && !space(t[0])
    ensures Trim(t, space) != [] && Trim(t, space)[0] == t[0]
  {
    assert TrimStart(t, space) == t;
    TrimEndDrops(t, space);
  }

  /** `int()` does not skip the separators U+001C to U+001F that
      `strip()` removes: a text starting with one is a ValueError. */
  lemma ParseIntRejectsSeparator(c: char, s: string)
    requires '\U{1C}' <= c <= '\U{1F}'
    ensures ParseInt([c] + s) == None
  {
    var t := [c] + s;
    TrimKeepsHead(t, IsIntSpace);
    var r := Trim(t, IsIntSpace);
    assert !IsDigit(r[0]) && r[0] != '-' && r[0] != '+';
    assert !AllDigits(r);
  }

  /** A text without the separator's first character is one piece. */
  lemma {:induction false} SplitWhole(s: string, sep: string)
    requires sep != []
    requires forall k | 0 <= k < |s| :: s[k] != sep[0]
    ensures Split(s, sep) == [s]
    decreases |s|
  {
    if |s| >= |sep| {
      assert s[..|sep|][0] != sep[0];
      SplitWhole(s[1..], sep);
      assert [s[0]] + s[1..] == s;
    }
  }

  /** The first occurrence of the separator ends the first piece. */
  lemma {:induction false} SplitAfter(a: string, sep: string, b: string)
    requires sep != []
    requires forall k | 0 <= k < |a| :: a[k] != sep[0]
    ensures Split(a + sep + b, sep) == [a] + Split(b, sep)
    decreases |a|
  {
    var s := a + sep + b;
    if a == [] {
      assert s[..|sep|] == sep && s[|sep|..] == b;
    } else {
      assert s[..|sep|][0] != sep[0];
      SplitAfter(a[1..], sep, b);
      assert s[1..] == a[1..] + sep + b;
      assert [a[0]] + a[1..] == a;
    }
  }

  /** One step of splitting on a one-character separator. */
  lemma SplitStep(s: string, c: char)
    requires s != []
    ensures s[0] == c ==> Split(s, [c]) == [""] + Split(s[1..], [c])
    ensures s[0] != c ==> Split(s, [c]) == [[s[0]] + Split(s[1..], [c])[0]] + Split(s[1..], [c])[1..]
  {
    assert s[..1] == [s[0]];
  }

  /** The step of SplitConcat where the text before the separator is
      empty. */
  lemma SplitConcatEmpty(c: char, b: string, s: string)
    requires s == [c] + b
    ensures Split(s, [c]) == Split([], [c]) + Split(b, [c])
  {
    SplitStep(s, c);
    assert s[1..] == b;
  }

  /** Putting a piece in front commutes with appending more pieces. */
  lemma ConsConcat(p: string, x: seq<string>, y: seq<string>)
    ensures [p] + (x + y) == ([p] + x) + y
  {
  }

  /** Growing the first piece of a list commutes with appending more
      pieces. */
  lemma GrowFirstConcat(ch: char, x: seq<string>, y: seq<string>)
    requires |x| >= 1
    ensures [[ch] + (x + y)[0]] + (x + y)[1..] == ([[ch] + x[0]] + x[1..]) + y
  {
    assert (x + y)[0] == x[0];
    assert (x + y)[1..] == x[1..] + y;
  }

  /** The inductive step of SplitConcat: two texts that start with the
      same character, and whose rests split into the same pieces up to a
      common tail, do so themselves. */
  lemma SplitSameHead(s: string, a: string, c: char, y: seq<string>)
    requires s != [] && a != [] && s[0] == a[0]
    requires Split(s[1..], [c]) == Split(a[1..], [c]) + y
    ensures Split(s, [c]) == Split(a, [c]) + y
  {
    var x := Split(a[1..], [c]);
    SplitStep(s, c);
    SplitStep(a, c);
    if a[0] == c {
      ConsConcat("", x, y);
    } else {
      GrowFirstConcat(a[0], x, y);
    }
  }

  /** With a one-character separator, splitting distributes over a
      separator between two texts. */
  lemma {:induction false} SplitConcat(a: string, c: char, b: string)
    ensures Split(a + [c] + b, [c]) == Split(a, [c]) + Split(b, [c])
    decreases |a|
  {
    var s := a + [c] + b;
    if a == [] {
      SplitConcatEmpty(c, b, s);
    } else {
      SplitConcat(a[1..], c, b);
      assert s[1..] == a[1..] + [c] + b;
      SplitSameHead(s, a, c, Split(b, [c]));
    }
  }

  /** Python's `parts[i]`, where a negative index counts from the end. */
  function Field(parts: seq<string>, i: int): Result<string> {
    if -|parts| <= i < |parts| then Ok(parts[if i < 0 then |parts| + i else i])
    else Err(IndexError)
  }

  /** `int(line.split(sep)[i])`. */
  function IntField(line: string, sep: string, i: int): Result<int>
    requires sep != []
  {
    match Field(Split(line, sep), i)
    case Err(e) => Err(e)
    case Ok(f) =>
      match ParseInt(f)
      case None => Err(ValueError)
      case Some(n) => Ok(n)
  }
}

/** The scans that pull numbers out of kernel pseudo-files, given as their
    lines: the `CONFIG_HZ=` line of the kernel configuration, the
    boot-time clock offset of the first CPU in the timer listing, the
    `jiffies:` line of the same listing and the `btime` line of the
    kernel's status file. Each scan is a loop over the lines, proved
    against a definition by first or last matching line. */
module ProcFiles {
  import opened Errors
  import opened Text

  const ConfigPrefix := "CONFIG_HZ="
  const BoottimeTag := "ktime_get_boottime\n"
  const JiffiesPrefix := "jiffies:"
  const BtimePrefix := "btime"
  const NanosPerSecond: real := 1000000000.0

  /** Whether a pattern is looked for at the start or at the end of a line. */
  datatype Anchor = AtStart | AtEnd

  predicate Matches(line: string, pat: string, anchor: Anchor) {
    match anchor
    case AtStart => StartsWith(line, pat)
    case AtEnd => EndsWith(line, pat)
  }

  /** The index of the first matching line, if any. */
  function FirstMatch(lines: seq<string>, pat: string, anchor: Anchor): (r: Option<nat>)
    ensures r.Some? ==> r.value < |lines| && Matches(lines[r.value], pat, anchor)
    ensures r.Some? ==> forall k | 0 <= k < r.value :: !Matches(lines[k], pat, anchor)
    ensures r.None? ==> forall k | 0 <= k < |lines| :: !Matches(lines[k], pat, anchor)
    decreases |lines|
  {
    if lines == [] then None
    else if Matches(lines[0], pat, anchor) then Some(0)
    else
      match FirstMatch(lines[1..], pat, anchor)
      case None => None
      case Some(i) => Some(i + 1)
  }

  /** The index of the last matching line, if any. */
  function LastMatch(lines: seq<string>, pat: string, anchor: Anchor): (r: Option<nat>)
    ensures r.Some? ==> r.value < |lines| && Matches(lines[r.value], pat, anchor)
    ensures r.Some? ==> forall k | r.value < k < |lines| :: !Matches(lines[k], pat, anchor)
    ensures r.None? ==> forall k | 0 <= k < |lines| :: !Matches(lines[k], pat, anchor)
    decreases |lines|
  {
    if lines == [] then None
    else if Matches(lines[|lines| - 1], pat, anchor) then Some(|lines| - 1)
    else LastMatch(lines[..|lines| - 1], pat, anchor)
  }

  // ---------------------------------------------------------------------
  // Single lines

  /** `int(ln.split('=')[1])` on a configuration line. */
  function ConfigValue(line: string): Result<int> {
    IntField(line, "=", 1)
  }

  /** `int(line.split(': ')[1])` on a `jiffies:` line. */
  function JiffiesValue(line: string): Result<int> {
    IntField(line, ": ", 1)
  }

  /** `int(line.strip().split(' ')[1])` on a `btime` line. */
  function BtimeValue(line: string): Result<int> {
    IntField(Strip(line), " ", 1)
  }

  /** `int(line.strip().split(' ')[-2])`: the next-to-last field of the
      line that follows the boot-time clock's name. */
  function OffsetValue(line: string): Result<int> {
    IntField(Strip(line), " ", -2)
  }

  predicate NoChar(s: string, c: char) {
    forall k | 0 <= k < |s| :: s[k] != c
  }

  lemma ShowIntNoChar(n: int, c: char)
    requires !IsDigit(c) && c != '-'
    ensures NoChar(ShowInt(n), c)
  {
  }

  /** A field that splits out and parses is the line's integer field. */
  lemma IntFieldIs(line: string, sep: string, i: int, f: string, n: int)
    requires sep != [] && Field(Split(line, sep), i) == Ok(f) && ParseInt(f) == Some(n)
    ensures IntField(line, sep, i) == Ok(n)
  {
  }

  /** The text after the first separator, when it holds no separator,
      is the second field. */
  lemma SecondField(line: string, name: string, sep: string, tail: string)
    requires sep != [] && NoChar(name, sep[0]) && NoChar(tail, sep[0])
    requires line == name + sep + tail
    ensures Field(Split(line, sep), 1) == Ok(tail)
  {
    SplitAfter(name, sep, tail);
    SplitWhole(tail, sep);
  }

  /** A printed integer followed by white space that `int()` skips parses
      as itself. */
  lemma TailParses(n: int, post: string, tail: string)
    requires forall k | 0 <= k < |post| :: IsIntSpace(post[k])
    requires tail == ShowInt(n) + post
    ensures ParseInt(tail) == Some(n)
  {
    assert tail == "" + ShowInt(n) + post;
    ParseIntPadded("", n, post, tail);
  }

  /** `<name><sep><n>` followed by white space that `int()` skips: the
      field after the separator parses as n. */
  lemma NamedFieldParses(name: string, sep: string, n: int, post: string, line: string)
    requires sep != [] && !IsDigit(sep[0]) && sep[0] != '-'
    requires NoChar(name, sep[0]) && NoChar(post, sep[0])
    requires forall k | 0 <= k < |post| :: IsIntSpace(post[k])
    requires line == name + sep + ShowInt(n) + post
    ensures IntField(line, sep, 1) == Ok(n)
  {
    var tail := ShowInt(n) + post;
    ShowIntNoChar(n, sep[0]);
    assert NoChar(tail, sep[0]);
    assert line == name + sep + tail;
    SecondField(line, name, sep, tail);
    TailParses(n, post, tail);
    IntFieldIs(line, sep, 1, tail, n);
  }

  /** The configuration line the kernel writes is read back. */
  lemma ConfigValueReadsBack(hz: int)
    ensures ConfigValue(ConfigPrefix + ShowInt(hz) + "\n") == Ok(hz)
  {
    var line := ConfigPrefix + ShowInt(hz) + "\n";
    assert NoChar("CONFIG_HZ", '=');
    assert line == "CONFIG_HZ" + "=" + ShowInt(hz) + "\n";
    NamedFieldParses("CONFIG_HZ", "=", hz, "\n", line);
  }

  /** The `jiffies:` line of the timer listing is read back. */
  lemma JiffiesValueReadsBack(j: int)
    ensures JiffiesValue(JiffiesPrefix + " " + ShowInt(j)) == Ok(j)
  {
    var line := JiffiesPrefix + " " + ShowInt(j);
    assert NoChar("jiffies", ':');
    assert line == "jiffies" + ": " + ShowInt(j) + "";
    NamedFieldParses("jiffies", ": ", j, "", line);
  }

  lemma BtimeLineStrips(btime: int, line: string, body: string)
    requires line == BtimePrefix + " " + ShowInt(btime) + "\n"
    requires body == "btime" + " " + ShowInt(btime)
    ensures Strip(line) == body
  {
    var tail := ShowInt(btime);
    assert body[0] == 'b' && body[|body| - 1] == tail[|tail| - 1];
    assert line == "" + body + "\n";
    StripPadded("", body, "\n");
  }

  /** The `btime` line of the kernel's status file is read back. */
  lemma BtimeValueReadsBack(btime: int)
    ensures BtimeValue(BtimePrefix + " " + ShowInt(btime) + "\n") == Ok(btime)
  {
    var line := BtimePrefix + " " + ShowInt(btime) + "\n";
    var body := "btime" + " " + ShowInt(btime);
    BtimeLineStrips(btime, line, body);
    assert NoChar("btime", ' ');
    assert body == "btime" + " " + ShowInt(btime) + "";
    NamedFieldParses("btime", " ", btime, "", body);
  }

  /** Two space-free words separated by one space split into the two. */
  lemma SplitTwoWords(first: string, second: string)
    requires NoChar(first, ' ') && NoChar(second, ' ')
    ensures Split(first + " " + second, " ") == [first, second]
  {
    assert first + " " + second == first + [' '] + second;
    SplitConcat(first, ' ', second);
    SplitWhole(first, " ");
    SplitWhole(second, " ");
  }

  /** A name, a space-free number and a space-free unit split into the
      name's pieces followed by the number and the unit. */
  lemma SplitNameNumberUnit(name: string, digits: string, unit: string, line: string)
    requires NoChar(digits, ' ') && NoChar(unit, ' ')
    requires line == name + " " + digits + " " + unit
    ensures Split(line, " ") == Split(name, " ") + [digits, unit]
  {
    var rest := digits + " " + unit;
    assert line == name + [' '] + rest;
    SplitConcat(name, ' ', rest);
    SplitTwoWords(digits, unit);
  }

  /** The next-to-last of the pieces. */
  lemma NextToLastField(front: seq<string>, digits: string, unit: string)
    ensures Field(front + [digits, unit], -2) == Ok(digits)
  {
  }

  /** `<name> <n> <unit>`: the next-to-last field parses as n, whatever
      spaces the name holds. */
  lemma NextToLastParses(name: string, n: int, unit: string)
    requires unit != [] && NoChar(unit, ' ')
    ensures IntField(name + " " + ShowInt(n) + " " + unit, " ", -2) == Ok(n)
  {
    var digits := ShowInt(n);
    var line := name + " " + digits + " " + unit;
    ShowIntNoChar(n, ' ');
    SplitNameNumberUnit(name, digits, unit, line);
    NextToLastField(Split(name, " "), digits, unit);
    assert digits == "" + ShowInt(n) + "";
    ParseIntPadded("", n, "", digits);
    IntFieldIs(line, " ", -2, digits, n);
  }

  lemma OffsetLineStrips(pre: string, body: string, post: string, line: string)
    requires body != [] && !IsSpace(body[0]) && !IsSpace(body[|body| - 1])
    requires forall k | 0 <= k < |pre| :: IsSpace(pre[k])
    requires forall k | 0 <= k < |post| :: IsSpace(post[k])
    requires line == pre + body + post
    ensures Strip(line) == body
  {
    StripPadded(pre, body, post);
  }

  /** An offset line, `<name> <n> <unit>` padded with white space, is read
      back as n. */
  lemma OffsetValueReadsBack(pre: string, name: string, ns: int, unit: string, post: string)
    requires name != [] && !IsSpace(name[0])
    requires unit != [] && NoChar(unit, ' ') && !IsSpace(unit[|unit| - 1])
    requires forall k | 0 <= k < |pre| :: IsSpace(pre[k])
    requires forall k | 0 <= k < |post| :: IsSpace(post[k])
    ensures OffsetValue(pre + name + " " + ShowInt(ns) + " " + unit + post) == Ok(ns)
  {
    var body := name + " " + ShowInt(ns) + " " + unit;
    var line := pre + name + " " + ShowInt(ns) + " " + unit + post;
    assert body[0] == name[0] && body[|body| - 1] == unit[|unit| - 1];
    assert line == pre + body + post;
    OffsetLineStrips(pre, body, post, line);
    NextToLastParses(name, ns, unit);
  }

  // ---------------------------------------------------------------------
  // Whole files

  /** The value after `sep` on the first line that starts with `prefix`,
      or Ok(None) when no line does. */
  function FirstIntField(lines: seq<string>, prefix: string, sep: string): Result<Option<int>>
    requires sep != []
  {
    match FirstMatch(lines, prefix, AtStart)
    case None => Ok(None)
    case Some(i) =>
      match IntField(lines[i], sep, 1)
      case Err(e) => Err(e)
      case Ok(n) => Ok(Some(n))
  }

  /** The kernel configuration scan: the first `CONFIG_HZ=` line decides;
      None when there is none. */
  method ReadConfigHz(lines: seq<string>) returns (hz: Result<Option<int>>)
    ensures hz == FirstIntField(lines, ConfigPrefix, "=")
  {
    hz := Ok(None);
    var i := 0;
    while i < |lines|
      invariant 0 <= i <= |lines|
      invariant forall k | 0 <= k < i :: !StartsWith(lines[k], ConfigPrefix)
    {
      if StartsWith(lines[i], ConfigPrefix) {
        assert FirstMatch(lines, ConfigPrefix, AtStart) == Some(i);
        var v := ConfigValue(lines[i]);
        if v.Err? {
          return Err(v.error);
        }
        hz := Ok(Some(v.value));
        break;
      }
      i := i + 1;
    }
  }

  /** The `jiffies:` scan over the uptime and timer-listing snapshot: the
      first such line gives the new counter value; with none, the counter
      value read before is kept. */
  method ScanJiffies(lines: seq<string>, previous: Option<int>) returns (jiffies: Result<Option<int>>)
    ensures FirstIntField(lines, JiffiesPrefix, ": ") == Ok(None) ==> jiffies == Ok(previous)
    ensures FirstIntField(lines, JiffiesPrefix, ": ") != Ok(None) ==> jiffies == FirstIntField(lines, JiffiesPrefix, ": ")
  {
    jiffies := Ok(previous);
    var i := 0;
    while i < |lines|
      invariant 0 <= i <= |lines|
      invariant forall k | 0 <= k < i :: !StartsWith(lines[k], JiffiesPrefix)
    {
      if StartsWith(lines[i], JiffiesPrefix) {
        assert FirstMatch(lines, JiffiesPrefix, AtStart) == Some(i);
        var v := JiffiesValue(lines[i]);
        if v.Err? {
          return Err(v.error);
        }
        jiffies := Ok(Some(v.value));
        break;
      }
      i := i + 1;
    }
  }

  /** The boot-time clock offset, in seconds, of the first CPU: the
      next-to-last field of the line after the first line that ends with
      the boot-time clock's name, divided by 10^9; 0 when there is no such
      line or it is the last one. */
  function Cpu0OffsetOf(lines: seq<string>): Result<real> {
    match FirstMatch(lines, BoottimeTag, AtEnd)
    case None => Ok(0.0)
    case Some(i) =>
      if i + 1 == |lines| then Ok(0.0)
      else
        match OffsetValue(lines[i + 1])
        case Err(e) => Err(e)
        case Ok(ns) => Ok(ns as real / NanosPerSecond)
  }

  /** The timer-listing scan with its three states: looking for the clock
      (go == 2), reading the line after it (go == 1), done (go == 0). */
  method Cpu0Offset(lines: seq<string>) returns (seconds: Result<real>)
    ensures seconds == Cpu0OffsetOf(lines)
  {
    var offset := 0;
    var go := 2;
    var i := 0;
    while i < |lines|
      invariant 0 <= i <= |lines|
      invariant go == 2 || go == 1
      invariant go == 2 ==> forall k | 0 <= k < i :: !EndsWith(lines[k], BoottimeTag)
      invariant go == 1 ==> 0 < i && FirstMatch(lines, BoottimeTag, AtEnd) == Some(i - 1)
      invariant offset == 0
    {
      var line := lines[i];
      if go == 2 {
        if EndsWith(line, BoottimeTag) {
          assert FirstMatch(lines, BoottimeTag, AtEnd) == Some(i);
          go := go - 1;
        }
      } else if go == 1 {
        var v := OffsetValue(line);
        if v.Err? {
          return Err(v.error);
        }
        offset := v.value;
        go := 0;
      }
      if go == 0 {
        break;
      }
      i := i + 1;
    }
    seconds := Ok(offset as real / NanosPerSecond);
  }

  /** The listing's first boot-time clock decides the offset, whatever
      follows it: a later clock of another CPU is never read. */
  lemma Cpu0OffsetReadsFirstClock(before: seq<string>, clock: string, pre: string, name: string,
                                  ns: int, unit: string, post: string, after: seq<string>)
    requires forall k | 0 <= k < |before| :: !EndsWith(before[k], BoottimeTag)
    requires name != [] && !IsSpace(name[0])
    requires unit != [] && NoChar(unit, ' ') && !IsSpace(unit[|unit| - 1])
    requires forall k | 0 <= k < |pre| :: IsSpace(pre[k])
    requires forall k | 0 <= k < |post| :: IsSpace(post[k])
    ensures Cpu0OffsetOf(before + [clock + BoottimeTag, pre + name + " " + ShowInt(ns) + " " + unit + post] + after)
            == Ok(ns as real / NanosPerSecond)
  {
    var lines := before + [clock + BoottimeTag, pre + name + " " + ShowInt(ns) + " " + unit + post] + after;
    assert lines[|before|] == clock + BoottimeTag;
    assert (clock + BoottimeTag)[|clock|..] == BoottimeTag;
    assert FirstMatch(lines, BoottimeTag, AtEnd) == Some(|before|);
    OffsetValueReadsBack(pre, name, ns, unit, post);
  }

  /** A matching line with no match after it is the last match. */
  lemma LastMatchIs(lines: seq<string>, pat: string, anchor: Anchor, i: nat)
    requires i < |lines| && Matches(lines[i], pat, anchor)
    requires forall k | i < k < |lines| :: !Matches(lines[k], pat, anchor)
    ensures LastMatch(lines, pat, anchor) == Some(i)
  {
    var r := LastMatch(lines, pat, anchor);
    assert r.Some?;
    assert !(r.value < i);
    assert !(r.value > i);
  }

  /** The last match in a list with one more line in front. */
  lemma LastMatchCons(lines: seq<string>, pat: string, anchor: Anchor)
    requires lines != []
    ensures LastMatch(lines, pat, anchor) ==
              match LastMatch(lines[1..], pat, anchor)
              case Some(i) => Some(i + 1)
              case None => if Matches(lines[0], pat, anchor) then Some(0) else None
  {
    var rest := lines[1..];
    match LastMatch(rest, pat, anchor)
    case Some(i) =>
      assert lines[i + 1] == rest[i];
      forall k | i + 1 < k < |lines| ensures !Matches(lines[k], pat, anchor) {
        assert lines[k] == rest[k - 1];
      }
      LastMatchIs(lines, pat, anchor, i + 1);
    case None =>
      forall k | 1 <= k < |lines| ensures !Matches(lines[k], pat, anchor) {
        assert lines[k] == rest[k - 1];
      }
      if Matches(lines[0], pat, anchor) {
        LastMatchIs(lines, pat, anchor, 0);
      } else {
        assert forall k | 0 <= k < |lines| :: !Matches(lines[k], pat, anchor);
      }
  }

  /** A scan for the last line with a prefix, as the code runs it: every
      line with the prefix is parsed, in order, the first one that does not
      parse raises, and the value of the last one parsed is kept. */
  function ScanLast(lines: seq<string>, prefix: string, parse: string -> Result<int>,
                    last: Option<int>): Result<Option<int>>
    decreases |lines|
  {
    if lines == [] then Ok(last)
    else if StartsWith(lines[0], prefix) then
      match parse(lines[0])
      case Err(e) => Err(e)
      case Ok(b) => ScanLast(lines[1..], prefix, parse, Some(b))
    else ScanLast(lines[1..], prefix, parse, last)
  }

  /** Every line with the prefix parses. */
  predicate AllParse(lines: seq<string>, prefix: string, parse: string -> Result<int>) {
    forall k | 0 <= k < |lines| && StartsWith(lines[k], prefix) :: parse(lines[k]).Ok?
  }

  /** The scan succeeds exactly when every line with the prefix parses: an
      unparsable line raises even when a later line would parse. */
  lemma {:induction false} ScanLastSucceeds(lines: seq<string>, prefix: string,
                                            parse: string -> Result<int>, last: Option<int>)
    ensures ScanLast(lines, prefix, parse, last).Ok? <==> AllParse(lines, prefix, parse)
    decreases |lines|
  {
    if lines != [] {
      var rest := lines[1..];
      assert forall k | 1 <= k < |lines| :: lines[k] == rest[k - 1];
      assert AllParse(lines, prefix, parse) <==>
        (StartsWith(lines[0], prefix) ==> parse(lines[0]).Ok?) && AllParse(rest, prefix, parse);
      var next := if StartsWith(lines[0], prefix) && parse(lines[0]).Ok?
                  then Some(parse(lines[0]).value) else last;
      ScanLastSucceeds(rest, prefix, parse, next);
    }
  }

  /** When it succeeds, the scan gives the value of the LAST line with the
      prefix (the loop has no break), or the value held before when there
      is none. */
  lemma {:induction false} ScanLastIsLast(lines: seq<string>, prefix: string,
                                          parse: string -> Result<int>, last: Option<int>)
    requires ScanLast(lines, prefix, parse, last).Ok?
    ensures LastMatch(lines, prefix, AtStart).None? ==> ScanLast(lines, prefix, parse, last) == Ok(last)
    ensures LastMatch(lines, prefix, AtStart).Some? ==>
              var i := LastMatch(lines, prefix, AtStart).value;
              parse(lines[i]).Ok? && ScanLast(lines, prefix, parse, last) == Ok(Some(parse(lines[i]).value))
    decreases |lines|
  {
    if lines != [] {
      var rest := lines[1..];
      var next := if StartsWith(lines[0], prefix) then Some(parse(lines[0]).value) else last;
      assert ScanLast(lines, prefix, parse, last) == ScanLast(rest, prefix, parse, next);
      ScanLastIsLast(rest, prefix, parse, next);
      LastMatchCons(lines, prefix, AtStart);
      if LastMatch(rest, prefix, AtStart).Some? {
        assert lines[LastMatch(rest, prefix, AtStart).value + 1] == rest[LastMatch(rest, prefix, AtStart).value];
      }
    }
  }

  /** The `btime` scan of the kernel's status file. */
  function BtimeScan(lines: seq<string>, last: Option<int>): Result<Option<int>> {
    ScanLast(lines, BtimePrefix, BtimeValue, last)
  }

  method ReadBtime(lines: seq<string>) returns (btime: Result<Option<int>>)
    ensures btime == BtimeScan(lines, None)
  {
    var last: Option<int> := None;
    var i := 0;
    while i < |lines|
      invariant 0 <= i <= |lines|
      invariant BtimeScan(lines, None) == ScanLast(lines[i..], BtimePrefix, BtimeValue, last)
    {
      assert lines[i..][1..] == lines[i + 1..];
      if StartsWith(lines[i], BtimePrefix) {
        var v := BtimeValue(lines[i]);
        if v.Err? {
          return Err(v.error);
        }
        last := Some(v.value);
      }
      i := i + 1;
    }
    btime := Ok(last);
  }

  /** The `btime` scan succeeds exactly when every `btime` line parses. */
  lemma BtimeScanSucceeds(lines: seq<string>, last: Option<int>)
    ensures BtimeScan(lines, last).Ok? <==>
              forall k | 0 <= k < |lines| && StartsWith(lines[k], BtimePrefix) :: BtimeValue(lines[k]).Ok?
  {
    ScanLastSucceeds(lines, BtimePrefix, BtimeValue, last);
  }

  /** When it succeeds, the `btime` scan gives the value of the last
      `btime` line, or the value held before when there is none. */
  lemma BtimeScanIsLast(lines: seq<string>, last: Option<int>)
    requires BtimeScan(lines, last).Ok?
    ensures LastMatch(lines, BtimePrefix, AtStart).None? ==> BtimeScan(lines, last) == Ok(last)
    ensures LastMatch(lines, BtimePrefix, AtStart).Some? ==>
              var i := LastMatch(lines, BtimePrefix, AtStart).value;
              BtimeValue(lines[i]).Ok? && BtimeScan(lines, last) == Ok(Some(BtimeValue(lines[i]).value))
  {
    ScanLastIsLast(lines, BtimePrefix, BtimeValue, last);
  }
}

/** Reading zsh's history file (internal/histfile/histfile.go): header lines, continuation lines and
    zsh's byte escaping, against a writer that stores entries the way zsh does. */
module ZshHistory {
  import opened Calendar
  import opened Undated

  type Byte = b: int | 0 <= b < 256

  const NEWLINE: Byte := 10
  const SPACE: Byte := 32
  const COLON: Byte := 58
  const SEMICOLON: Byte := 59
  const BACKSLASH: Byte := 92
  const META: Byte := 0x83

  /** b XOR 32. */
  function Flip(b: Byte): (r: Byte)
    ensures r != b && (r == b + 32 || r == b - 32)
  {
    if b / 32 % 2 == 1 then b - 32 else b + 32
  }

  lemma FlipTwice(b: Byte)
    ensures Flip(Flip(b)) == b
  {
  }

  /** The emptiness test on trimmed text. White space beyond ASCII is the library's business; what is
      relied on is that nothing with a printable ASCII character is blank and that nothing at all is. */
  ghost predicate IsBlankTest(blank: seq<Byte> -> bool) {
    blank([]) && forall s, i :: 0 <= i < |s| && 33 <= s[i] <= 126 ==> !blank(s)
  }

  // ------------------------------------------------------------- numbers

  predicate IsDigit(b: Byte) {
    48 <= b <= 57
  }

  predicate AllDigits(s: seq<Byte>) {
    s != [] && forall i :: 0 <= i < |s| ==> IsDigit(s[i])
  }

  function Digits(n: nat): (s: seq<Byte>)
    ensures AllDigits(s)
  {
    if n < 10 then [48 + n] else Digits(n / 10) + [48 + n % 10]
  }

  function Number(s: seq<Byte>): nat
    requires forall i :: 0 <= i < |s| ==> IsDigit(s[i])
  {
    if s == [] then 0 else
      assert IsDigit(s[|s|-1]);
      Number(s[..|s|-1]) * 10 + (s[|s|-1] as int - 48)
  }

  lemma {:induction false} NumberOfDigits(n: nat)
    ensures Number(Digits(n)) == n
  {
    if n < 10 {
      assert Digits(n)[..0] == [];
    } else {
      NumberOfDigits(n / 10);
      assert Digits(n)[..|Digits(n)|-1] == Digits(n / 10);
    }
  }

  const MAX_INT64 := 0x7fff_ffff_ffff_ffff

  /** strconv.ParseInt with its error ignored: a number out of range reads as the largest. */
  function ParseInt64(s: seq<Byte>): int
    requires forall i :: 0 <= i < |s| ==> IsDigit(s[i])
  {
    if Number(s) > MAX_INT64 then MAX_INT64 else Number(s)
  }

  /** Go's int64 arithmetic wraps. */
  function Wrap64(x: int): int {
    (x + MAX_INT64 + 1) % 0x1_0000_0000_0000_0000 - MAX_INT64 - 1
  }

  // ------------------------------------------------------------- lines

  /** bytes.IndexByte; |s| when there is none. */
  function IndexOf(s: seq<Byte>, b: Byte): (i: nat)
    ensures i <= |s| && b !in s[..i] && (i < |s| ==> s[i] == b)
  {
    if s == [] then 0 else if s[0] == b then 0 else
      var i := IndexOf(s[1..], b) + 1;
      assert s[..i] == [s[0]] + s[1..][..i-1];
      i
  }

  lemma {:induction false} IndexIs(a: seq<Byte>, b: Byte, c: seq<Byte>)
    requires b !in a
    ensures IndexOf(a + [b] + c, b) == |a|
  {
    if a != [] {
      IndexIs(a[1..], b, c);
      assert (a + [b] + c)[1..] == a[1..] + [b] + c;
    }
  }

  lemma NoIndex(a: seq<Byte>, b: Byte)
    requires b !in a
    ensures IndexOf(a, b) == |a|
  {
  }

  /** bytes.Split on newlines: one line more than there are newlines. */
  function Lines(s: seq<Byte>): (lines: seq<seq<Byte>>)
    ensures lines != []
  {
    var i := IndexOf(s, NEWLINE);
    if i == |s| then [s] else [s[..i]] + Lines(s[i+1..])
  }

  lemma LinesSplit(a: seq<Byte>, b: seq<Byte>)
    requires NEWLINE !in a
    ensures Lines(a + [NEWLINE] + b) == [a] + Lines(b)
  {
    var s := a + [NEWLINE] + b;
    IndexIs(a, NEWLINE, b);
    assert s[..|a|] == a && s[|a|+1..] == b;
  }

  lemma {:induction false} LinesAppend(a: seq<Byte>, b: seq<Byte>)
    ensures Lines(a + [NEWLINE] + b) == Lines(a) + Lines(b)
  {
    hide IndexOf;
    var i := IndexOf(a, NEWLINE);
    if i == |a| {
      assert a[..i] == a;
      LinesSplit(a, b);
    } else {
      var head, tail := a[..i], a[i+1..];
      LinesAppend(tail, b);
      assert a + [NEWLINE] + b == head + [NEWLINE] + (tail + [NEWLINE] + b);
      LinesSplit(head, tail + [NEWLINE] + b);
      assert [head] + (Lines(tail) + Lines(b)) == ([head] + Lines(tail)) + Lines(b);
    }
  }

  // ------------------------------------------------------------- header lines

  datatype Header = Header(started: seq<Byte>, elapsed: seq<Byte>, rest: seq<Byte>)

  /** Reads `<started>:<elapsed>;<command>`. */
  function Stamps(rest: seq<Byte>): (r: Option<Header>)
    ensures r.Some? ==> && AllDigits(r.value.started) && AllDigits(r.value.elapsed)
                        && rest == r.value.started + [COLON] + r.value.elapsed + [SEMICOLON] + r.value.rest
  {
    var colon := IndexOf(rest, COLON);
    if colon == |rest| then None else
      var semi := IndexOf(rest[colon..], SEMICOLON) + colon;
      if semi <= colon || semi == |rest| then None else
        var started, elapsed := rest[..colon], rest[colon+1..semi];
        if started == [] || !AllDigits(started) || !AllDigits(elapsed) then None
        else Some(Header(started, elapsed, rest[semi+1..]))
  }

  /** Reads `: <started>:<elapsed>;<command>`. */
  function ZshEntry(line: seq<Byte>): (r: Option<Header>)
    ensures r.Some? ==> AllDigits(r.value.started) && AllDigits(r.value.elapsed)
  {
    if |line| < 2 || line[0] != COLON || line[1] != SPACE then None else Stamps(line[2..])
  }

  function HeaderFor(start: nat, elapsed: nat): seq<Byte> {
    [COLON, SPACE] + (Digits(start) + [COLON] + Digits(elapsed) + [SEMICOLON])
  }

  lemma StampsReadBack(a: seq<Byte>, b: seq<Byte>, rest: seq<Byte>)
    requires AllDigits(a) && AllDigits(b)
    ensures Stamps(a + [COLON] + b + [SEMICOLON] + rest) == Some(Header(a, b, rest))
  {
    hide IndexOf;
    var tail := a + [COLON] + b + [SEMICOLON] + rest;
    assert tail == a + [COLON] + (b + [SEMICOLON] + rest);
    IndexIs(a, COLON, b + [SEMICOLON] + rest);
    assert tail[|a|..] == ([COLON] + b) + [SEMICOLON] + rest;
    IndexIs([COLON] + b, SEMICOLON, rest);
    assert tail[..|a|] == a;
    assert tail[|a|+1..|a|+1+|b|] == b;
    assert tail[|a|+1+|b|+1..] == rest;
  }

  /** A header reads back as the two numbers it was written with. */
  lemma HeaderReadsBack(start: nat, elapsed: nat, rest: seq<Byte>)
    ensures ZshEntry(HeaderFor(start, elapsed) + rest) == Some(Header(Digits(start), Digits(elapsed), rest))
  {
    hide Digits, Stamps;
    StampsReadBack(Digits(start), Digits(elapsed), rest);
    var tail := Digits(start) + [COLON] + Digits(elapsed) + [SEMICOLON];
    assert ([COLON, SPACE] + tail + rest)[2..] == tail + rest;
  }

  // ------------------------------------------------------------- escaping and continuation

  /** What zsh's escaping stands for. */
  function Unmetafied(s: seq<Byte>): seq<Byte> {
    if s == [] then []
    else if s[0] == META && |s| > 1 then [Flip(s[1])] + Unmetafied(s[2..])
    else [s[0]] + Unmetafied(s[1..])
  }

  lemma {:induction false} NothingEscaped(s: seq<Byte>)
    requires META !in s
    ensures Unmetafied(s) == s
  {
    if s != [] {
      NothingEscaped(s[1..]);
      assert s == [s[0]] + s[1..];
    }
  }

  lemma Associate(a: seq<Byte>, b: seq<Byte>, c: seq<Byte>)
    ensures (a + b) + c == a + (b + c)
  {
  }

  method Unmetafy(b: seq<Byte>) returns (r: seq<Byte>)
    ensures r == Unmetafied(b)
  {
    hide Unmetafied, Flip;
    if IndexOf(b, META) == |b| {
      assert b[..|b|] == b;
      NothingEscaped(b);
      return b;
    }
    r := [];
    var i := 0;
    assert b[0..] == b;
    while i < |b|
      invariant 0 <= i <= |b| && r + Unmetafied(b[i..]) == Unmetafied(b)
    {
      UnmetafiedStep(b, i);
      if b[i] == META && i + 1 < |b| {
        i := i + 1;
        Associate(r, [Flip(b[i])], Unmetafied(b[i+1..]));
        r := r + [Flip(b[i])];
      } else {
        Associate(r, [b[i]], Unmetafied(b[i+1..]));
        r := r + [b[i]];
      }
      i := i + 1;
    }
    assert b[i..] == [];
    NothingEscaped([]);
  }

  lemma UnmetafiedStep(b: seq<Byte>, i: nat)
    requires i < |b|
    ensures Unmetafied(b[i..]) ==
            if b[i] == META && i + 1 < |b| then [Flip(b[i+1])] + Unmetafied(b[i+2..]) else [b[i]] + Unmetafied(b[i+1..])
  {
    assert b[i..][1..] == b[i+1..];
    if i + 1 < |b| { assert b[i..][2..] == b[i+2..]; }
  }

  function TrailingBackslashes(s: seq<Byte>): nat {
    if s == [] || s[|s|-1] != BACKSLASH then 0 else TrailingBackslashes(s[..|s|-1]) + 1
  }

  /** An odd number of backslashes ends `s`: so that the newline after it is escaped. */
  predicate Continues(s: seq<Byte>) {
    TrailingBackslashes(s) % 2 == 1
  }

  method ContinuesLine(s: seq<Byte>) returns (r: bool)
    ensures r <==> Continues(s)
  {
    var n, i := 0, |s| - 1;
    assert s[..|s|] == s;
    while i >= 0 && s[i] == BACKSLASH
      invariant -1 <= i < |s| && n + TrailingBackslashes(s[..i+1]) == TrailingBackslashes(s)
    {
      assert s[..i+1][..i] == s[..i];
      n := n + 1;
      i := i - 1;
    }
    return n % 2 == 1;
  }

  // ------------------------------------------------------------- parsing

  datatype Gathered = Gathered(cmd: seq<Byte>, rest: seq<seq<Byte>>)

  /** Takes continuation lines while there are any. */
  function Gather(cmd: seq<Byte>, rest: seq<seq<Byte>>): (g: Gathered)
    ensures |g.rest| <= |rest|
    decreases |rest|
  {
    if Continues(cmd) && rest != [] then Gather(cmd[..|cmd|-1] + [NEWLINE] + rest[0], rest[1..])
    else Gathered(cmd, rest)
  }

  lemma GatherStep(cmd: seq<Byte>, lines: seq<seq<Byte>>, last: nat)
    requires last < |lines|
    ensures Continues(cmd) ==> cmd != []
    ensures Gather(cmd, lines[last+1..]) ==
            if Continues(cmd) && last + 1 < |lines| then Gather(cmd[..|cmd|-1] + [NEWLINE] + lines[last+1], lines[last+2..])
            else Gathered(cmd, lines[last+1..])
  {
    if last + 1 < |lines| {
      assert lines[last+1..][1..] == lines[last+2..];
    }
  }

  /** The entry of a header, or of a line without one, whose gathered text is `text`. */
  function EntryOf(header: Option<Header>, text: seq<Byte>): Entry<seq<Byte>>
    requires header.Some? ==> AllDigits(header.value.started) && AllDigits(header.value.elapsed)
  {
    match header
    case None => Entry(text, 0, false, 0)
    case Some(h) =>
      if ParseInt64(h.started) > 0
      then Entry(text, Wrap64(ParseInt64(h.started) * 1000), false, Wrap64(ParseInt64(h.elapsed) * 1000))
      else Entry(text, 0, false, 0)
  }

  ghost function ParsedLines(blank: seq<Byte> -> bool, lines: seq<seq<Byte>>): seq<Entry<seq<Byte>>>
    decreases |lines|
  {
    if lines == [] then []
    else if blank(lines[0]) then ParsedLines(blank, lines[1..])
    else
      var header := ZshEntry(lines[0]);
      var g := Gather(if header.Some? then header.value.rest else lines[0], lines[1..]);
      var text := Unmetafied(g.cmd);
      (if blank(text) then [] else [EntryOf(header, text)]) + ParsedLines(blank, g.rest)
  }

  /** The entries of a zsh history file last modified at `end`, undated ones placed by position. */
  ghost function ParsedZsh(blank: seq<Byte> -> bool, raw: seq<Byte>, end: int): seq<Entry<seq<Byte>>> {
    AllDated(ParsedLines(blank, Lines(raw)), end)
  }

  /** Joins the lines that continue the one at i; the last of them is at `last`. */
  method GatherLines(lines: seq<seq<Byte>>, i: nat, first: seq<Byte>) returns (cmd: seq<Byte>, last: nat)
    requires i < |lines|
    ensures i <= last < |lines| && Gather(first, lines[i+1..]) == Gathered(cmd, lines[last+1..])
  {
    hide Continues, Gather;
    cmd, last := first, i;
    GatherStep(cmd, lines, last);
    var more := ContinuesLine(cmd);
    while more && last + 1 < |lines|
      invariant i <= last < |lines| && Gather(cmd, lines[last+1..]) == Gather(first, lines[i+1..])
      invariant more == Continues(cmd) && (more ==> cmd != [])
      invariant Gather(cmd, lines[last+1..]) ==
                if more && last + 1 < |lines| then Gather(cmd[..|cmd|-1] + [NEWLINE] + lines[last+1], lines[last+2..])
                else Gathered(cmd, lines[last+1..])
      decreases |lines| - last
    {
      cmd := cmd[..|cmd|-1];
      last := last + 1;
      cmd := cmd + [NEWLINE];
      cmd := cmd + lines[last];
      GatherStep(cmd, lines, last);
      more := ContinuesLine(cmd);
    }
  }

  method ParseLines(blank: seq<Byte> -> bool, lines: seq<seq<Byte>>) returns (out: seq<Entry<seq<Byte>>>)
    ensures out == ParsedLines(blank, lines)
  {
    hide Unmetafied, ZshEntry, EntryOf, Gather, ParsedLines;
    out := [];
    var i := 0;
    assert lines[0..] == lines;
    while i < |lines|
      invariant 0 <= i <= |lines| && out + ParsedLines(blank, lines[i..]) == ParsedLines(blank, lines)
    {
      OneLine(blank, lines, i);
      if blank(lines[i]) {
        i := i + 1;
        continue;
      }
      var header := ZshEntry(lines[i]);
      var cmd, last := GatherLines(lines, i, if header.Some? then header.value.rest else lines[i]);
      i := last + 1;
      var text := Unmetafy(cmd);
      if blank(text) { continue; }
      out := out + [EntryOf(header, text)];
    }
    NoLines(blank);
    assert lines[i..] == [];
  }

  method ParseZsh(blank: seq<Byte> -> bool, raw: seq<Byte>, end: int) returns (entries: seq<Entry<seq<Byte>>>)
    ensures entries == ParsedZsh(blank, raw, end)
  {
    hide AllDated, ParsedLines, Lines;
    var out := ParseLines(blank, Lines(raw));
    entries := DateAll(out, end);
  }

  method DateAll(out: seq<Entry<seq<Byte>>>, end: int) returns (r: seq<Entry<seq<Byte>>>)
    ensures r == AllDated(out, end)
  {
    hide DatedAt;
    var dated := new Entry<seq<Byte>>[|out|](k requires 0 <= k < |out| => out[k]);
    assert dated[..] == out;
    ApproximateUndated(dated, end);
    return dated[..];
  }

  lemma NoLines(blank: seq<Byte> -> bool)
    ensures ParsedLines(blank, []) == []
  {
  }

  lemma OneLine(blank: seq<Byte> -> bool, lines: seq<seq<Byte>>, i: nat)
    requires i < |lines|
    ensures var header := ZshEntry(lines[i]);
            var g := Gather(if header.Some? then header.value.rest else lines[i], lines[i+1..]);
            ParsedLines(blank, lines[i..]) ==
            if blank(lines[i]) then ParsedLines(blank, lines[i+1..])
            else (if blank(Unmetafied(g.cmd)) then [] else [EntryOf(header, Unmetafied(g.cmd))]) + ParsedLines(blank, g.rest)
  {
    hide Unmetafied, ZshEntry, EntryOf, Lines, Gather;
    assert lines[i..][1..] == lines[i+1..];
  }

  // ------------------------------------------------------------- the writer

  /** A command in the file; one with start 0 was written before zsh was told to write headers. */
  datatype Stored = Stored(start: nat, elapsed: nat, cmd: seq<Byte>)

  function HeadOf(e: Stored): seq<Byte> {
    if e.start == 0 then [] else HeaderFor(e.start, e.elapsed)
  }

  /** Which bytes zsh escapes: the escape byte itself, and otherwise none from the ASCII range but NUL. */
  ghost predicate IsSpecial(special: Byte -> bool) {
    special(META) && forall b: Byte :: special(b) ==> b == 0 || b >= 128
  }

  function Metafied(special: Byte -> bool, s: seq<Byte>): seq<Byte> {
    if s == [] then []
    else (if special(s[0]) then [META, Flip(s[0])] else [s[0]]) + Metafied(special, s[1..])
  }

  /** A command as zsh writes it: escaped bytes, and a backslash before every newline. */
  function Written(special: Byte -> bool, cmd: seq<Byte>): seq<Byte> {
    var i := IndexOf(cmd, NEWLINE);
    if i == |cmd| then Metafied(special, cmd)
    else Metafied(special, cmd[..i]) + [BACKSLASH] + [NEWLINE] + Written(special, cmd[i+1..])
  }

  function FileOf(special: Byte -> bool, entries: seq<Stored>): seq<Byte> {
    if entries == [] then []
    else HeadOf(entries[0]) + Written(special, entries[0].cmd) + [NEWLINE]
         + FileOf(special, entries[1..])
  }

  function EntryFor(e: Stored): Entry<seq<Byte>> {
    Entry(e.cmd, e.start * 1000, false, e.elapsed * 1000)
  }

  /** No line of the command ends in an odd number of backslashes. */
  predicate LinesEndEven(cmd: seq<Byte>) {
    forall k :: 0 <= k < |Lines(cmd)| ==> !Continues(Lines(cmd)[k])
  }

  predicate FitsInt64(e: Stored) {
    e.start > 0 && e.start * 1000 <= MAX_INT64 && e.elapsed * 1000 <= MAX_INT64
  }

  /** The numbers of a headed command fit; the first line of one without a header is not blank and does
      not look like a header. */
  ghost predicate HeadReadsBack(blank: seq<Byte> -> bool, special: Byte -> bool, e: Stored) {
    if e.start > 0 then FitsInt64(e)
    else
      var first := Lines(Written(special, e.cmd))[0];
      e.elapsed == 0 && !blank(first) && ZshEntry(first).None?
  }

  ghost predicate ReadsBack(blank: seq<Byte> -> bool, special: Byte -> bool, e: Stored) {
    !blank(e.cmd) && LinesEndEven(e.cmd) && HeadReadsBack(blank, special, e)
  }

  lemma {:induction false} MetafiedAppend(special: Byte -> bool, a: seq<Byte>, b: seq<Byte>)
    ensures Metafied(special, a + b) == Metafied(special, a) + Metafied(special, b)
  {
    if a == [] {
      assert a + b == b;
    } else {
      MetafiedAppend(special, a[1..], b);
      assert (a + b)[1..] == a[1..] + b;
      Associate(if special(a[0]) then [META, Flip(a[0])] else [a[0]], Metafied(special, a[1..]), Metafied(special, b));
    }
  }

  lemma MetafiedOne(special: Byte -> bool, b: Byte)
    ensures Metafied(special, [b]) == if special(b) then [META, Flip(b)] else [b]
  {
    assert [b][1..] == [];
  }

  lemma {:induction false} MetafiedKeepsLine(special: Byte -> bool, s: seq<Byte>)
    requires IsSpecial(special) && NEWLINE !in s
    ensures NEWLINE !in Metafied(special, s)
  {
    if s != [] {
      assert s[0] in s;
      MetafiedKeepsLine(special, s[1..]);
    }
  }

  /** Escaping is undone byte for byte. */
  lemma {:induction false} UnmetafiedMetafied(special: Byte -> bool, s: seq<Byte>)
    requires IsSpecial(special)
    ensures Unmetafied(Metafied(special, s)) == s
  {
    if s != [] {
      var t := Metafied(special, s[1..]);
      UnmetafiedMetafied(special, s[1..]);
      FlipTwice(s[0]);
      assert s == [s[0]] + s[1..];
      if special(s[0]) {
        assert ([META, Flip(s[0])] + t)[2..] == t;
      } else {
        assert ([s[0]] + t)[1..] == t;
      }
    }
  }

  predicate EndsClear(x: seq<Byte>) {
    x == [] || x[|x|-1] != BACKSLASH
  }

  lemma TrailingSnoc(x: seq<Byte>, b: Byte)
    ensures TrailingBackslashes(x + [b]) == if b == BACKSLASH then TrailingBackslashes(x) + 1 else 0
  {
    assert (x + [b])[..|x|] == x;
  }

  /** Escaping neither hides nor adds backslashes at the end of a line. */
  lemma {:induction false} TrailingKept(special: Byte -> bool, x: seq<Byte>, s: seq<Byte>)
    requires IsSpecial(special) && EndsClear(x)
    ensures TrailingBackslashes(x + Metafied(special, s)) == TrailingBackslashes(s)
  {
    hide TrailingBackslashes;
    if s == [] {
      assert x + Metafied(special, s) == x;
      ClearHasNone(x);
      ClearHasNone(s);
    } else {
      var rest, b := s[..|s|-1], s[|s|-1];
      assert s == rest + [b];
      MetafiedAppend(special, rest, [b]);
      MetafiedOne(special, b);
      TrailingKept(special, x, rest);
      TrailingSnoc(rest, b);
      var m := x + Metafied(special, rest);
      if special(b) {
        assert x + Metafied(special, s) == (m + [META]) + [Flip(b)];
        TrailingSnoc(m + [META], Flip(b));
      } else {
        assert x + Metafied(special, s) == m + [b];
        TrailingSnoc(m, b);
      }
    }
  }

  lemma ClearHasNone(x: seq<Byte>)
    requires EndsClear(x)
    ensures TrailingBackslashes(x) == 0
  {
  }

  lemma LinesOfOne(s: seq<Byte>)
    requires NEWLINE !in s
    ensures Lines(s) == [s]
  {
  }

  lemma WrittenOneLine(special: Byte -> bool, cmd: seq<Byte>)
    requires IsSpecial(special) && IndexOf(cmd, NEWLINE) == |cmd|
    ensures Lines(cmd) == [cmd] && Lines(Written(special, cmd)) == [Metafied(special, cmd)]
  {
    hide Metafied, Lines, IndexOf;
    assert cmd[..|cmd|] == cmd;
    MetafiedKeepsLine(special, cmd);
    LinesOfOne(cmd);
    LinesOfOne(Metafied(special, cmd));
  }

  /** A command's first line and the rest of it, as written. */
  lemma WrittenLines(special: Byte -> bool, cmd: seq<Byte>)
    requires IsSpecial(special) && IndexOf(cmd, NEWLINE) < |cmd|
    ensures var i := IndexOf(cmd, NEWLINE);
            && Lines(cmd) == [cmd[..i]] + Lines(cmd[i+1..])
            && Metafied(special, cmd) == Metafied(special, cmd[..i]) + [NEWLINE] + Metafied(special, cmd[i+1..])
            && Lines(Written(special, cmd)) == [Metafied(special, cmd[..i]) + [BACKSLASH]] + Lines(Written(special, cmd[i+1..]))
  {
    hide IndexOf, Metafied, Lines;
    var i := IndexOf(cmd, NEWLINE);
    var head, tail := cmd[..i], cmd[i+1..];
    assert cmd == head + [NEWLINE] + tail;
    LinesSplit(head, tail);
    MetafiedKeepsLine(special, head);
    var line := Metafied(special, head) + [BACKSLASH];
    LinesSplit(line, Written(special, tail));
    MetafiedAppend(special, head + [NEWLINE], tail);
    MetafiedAppend(special, head, [NEWLINE]);
    MetafiedOne(special, NEWLINE);
  }

  /** Joining the lines of a written command gives the command back, escapes and all. */
  lemma {:induction false} GatherWritten(special: Byte -> bool, x: seq<Byte>, cmd: seq<Byte>, more: seq<seq<Byte>>)
    requires IsSpecial(special) && EndsClear(x) && LinesEndEven(cmd)
    ensures var lines := Lines(Written(special, cmd));
            Gather(x + lines[0], lines[1..] + more) == Gathered(x + Metafied(special, cmd), more)
    decreases |cmd|
  {
    hide IndexOf, Metafied, Written, Lines, TrailingBackslashes;
    var i, lines := IndexOf(cmd, NEWLINE), Lines(Written(special, cmd));
    if i == |cmd| {
      WrittenOneLine(special, cmd);
      assert Lines(cmd)[0] == cmd;
      TrailingKept(special, x, cmd);
      assert lines[1..] + more == more;
    } else {
      WrittenLines(special, cmd);
      var line, tail := cmd[..i], cmd[i+1..];
      var acc, later := x + Metafied(special, line), Lines(Written(special, tail));
      assert Lines(cmd)[0] == line && forall k :: 0 <= k < |Lines(tail)| ==> Lines(tail)[k] == Lines(cmd)[k+1];
      TrailingKept(special, x, line);
      TrailingSnoc(acc, BACKSLASH);
      assert x + lines[0] == acc + [BACKSLASH];
      var rest := lines[1..] + more;
      assert rest == later + more && rest[0] == later[0] && rest[1..] == later[1..] + more;
      assert (x + lines[0])[..|x + lines[0]|-1] == acc;
      GatherWritten(special, acc + [NEWLINE], tail, more);
      assert (acc + [NEWLINE]) + Metafied(special, tail) == x + Metafied(special, cmd);
    }
  }

  // ------------------------------------------------------------- the round trip

  lemma LinesPrefix(h: seq<Byte>, s: seq<Byte>)
    requires NEWLINE !in h
    ensures Lines(h + s) == [h + Lines(s)[0]] + Lines(s)[1..]
  {
    hide IndexOf;
    var i := IndexOf(s, NEWLINE);
    if i == |s| {
      assert s[..i] == s;
      NoIndex(h + s, NEWLINE);
      LinesOfOne(h + s);
      LinesOfOne(s);
    } else {
      assert s == s[..i] + [NEWLINE] + s[i+1..];
      assert h + s == (h + s[..i]) + [NEWLINE] + s[i+1..];
      LinesSplit(h + s[..i], s[i+1..]);
      LinesSplit(s[..i], s[i+1..]);
    }
  }

  lemma HeaderIsOneLine(start: nat, elapsed: nat)
    ensures var h := HeaderFor(start, elapsed); NEWLINE !in h && h != [] && h[0] == COLON
  {
    hide Digits;
    var a, b := Digits(start), Digits(elapsed);
    assert forall i :: 0 <= i < |a| ==> IsDigit(a[i]);
    assert forall i :: 0 <= i < |b| ==> IsDigit(b[i]);
  }

  /** The lines of one stored entry followed by `more`: the parser reads the header, gathers the rest
      and goes on with whatever is left. */
  lemma EntryLines(blank: seq<Byte> -> bool, special: Byte -> bool, e: Stored, more: seq<seq<Byte>>)
    requires IsBlankTest(blank)
    ensures var w := Lines(Written(special, e.cmd));
            var g := Gather(w[0], w[1..] + more);
            var text := Unmetafied(g.cmd);
            ParsedLines(blank, Lines(HeaderFor(e.start, e.elapsed) + Written(special, e.cmd)) + more)
            == (if blank(text) then []
                else [EntryOf(Some(Header(Digits(e.start), Digits(e.elapsed), w[0])), text)]) + ParsedLines(blank, g.rest)
  {
    hide Lines, Written, Gather, Unmetafied, Digits, EntryOf, HeaderFor, ZshEntry;
    var h, w := HeaderFor(e.start, e.elapsed), Lines(Written(special, e.cmd));
    HeaderIsOneLine(e.start, e.elapsed);
    LinesPrefix(h, Written(special, e.cmd));
    var lines := Lines(h + Written(special, e.cmd)) + more;
    assert lines[0] == h + w[0] && lines[1..] == w[1..] + more;
    assert lines[0][0] == COLON;
    HeaderReadsBack(e.start, e.elapsed, w[0]);
  }

  lemma EntryReadsBack(e: Stored, rest: seq<Byte>)
    requires FitsInt64(e)
    ensures EntryOf(Some(Header(Digits(e.start), Digits(e.elapsed), rest)), e.cmd) == EntryFor(e)
  {
    NumberOfDigits(e.start);
    NumberOfDigits(e.elapsed);
  }

  /** The same for a command without a header. */
  lemma PlainLines(blank: seq<Byte> -> bool, special: Byte -> bool, e: Stored, more: seq<seq<Byte>>)
    requires e.start == 0 && HeadReadsBack(blank, special, e)
    ensures var w := Lines(Written(special, e.cmd));
            var g := Gather(w[0], w[1..] + more);
            var text := Unmetafied(g.cmd);
            ParsedLines(blank, Lines(HeadOf(e) + Written(special, e.cmd)) + more)
            == (if blank(text) then [] else [EntryOf(None, text)]) + ParsedLines(blank, g.rest)
  {
    hide Lines, Written, Gather, Unmetafied, EntryOf, ZshEntry;
    var w := Lines(Written(special, e.cmd));
    assert HeadOf(e) + Written(special, e.cmd) == Written(special, e.cmd);
    var lines := w + more;
    assert lines[0] == w[0] && lines[1..] == w[1..] + more;
  }

  lemma EntryRoundTrip(blank: seq<Byte> -> bool, special: Byte -> bool, e: Stored, more: seq<seq<Byte>>)
    requires IsBlankTest(blank) && IsSpecial(special) && ReadsBack(blank, special, e)
    ensures ParsedLines(blank, Lines(HeadOf(e) + Written(special, e.cmd)) + more) == [EntryFor(e)] + ParsedLines(blank, more)
  {
    hide Gather, Written, EntryOf, Unmetafied, LinesEndEven, HeaderFor, FitsInt64, IsBlankTest, Lines, ParsedLines,
      Digits, Metafied, HeadReadsBack, EntryFor;
    var w := Lines(Written(special, e.cmd));
    GatherWritten(special, [], e.cmd, more);
    assert [] + w[0] == w[0] && [] + Metafied(special, e.cmd) == Metafied(special, e.cmd);
    UnmetafiedMetafied(special, e.cmd);
    if e.start == 0 {
      PlainLines(blank, special, e, more);
      PlainReadsBack(blank, special, e);
    } else {
      EntryLines(blank, special, e, more);
      FitsWhenHeaded(blank, special, e);
      EntryReadsBack(e, w[0]);
    }
  }

  lemma PlainReadsBack(blank: seq<Byte> -> bool, special: Byte -> bool, e: Stored)
    requires e.start == 0 && HeadReadsBack(blank, special, e)
    ensures EntryOf(None, e.cmd) == EntryFor(e)
  {
  }

  lemma FitsWhenHeaded(blank: seq<Byte> -> bool, special: Byte -> bool, e: Stored)
    requires e.start > 0 && HeadReadsBack(blank, special, e)
    ensures FitsInt64(e)
  {
  }

  /** Any sequence of commands written the way zsh writes them, with or without headers, reads back the
      same, with the same start times and durations. */
  lemma {:induction false} LinesRoundTrip(blank: seq<Byte> -> bool, special: Byte -> bool, entries: seq<Stored>)
    requires IsBlankTest(blank) && IsSpecial(special)
    requires forall e :: e in entries ==> ReadsBack(blank, special, e)
    ensures var r := ParsedLines(blank, Lines(FileOf(special, entries)));
            |r| == |entries| && forall i :: 0 <= i < |entries| ==> r[i] == EntryFor(entries[i])
  {
    hide Lines, ParsedLines, Written, EntryFor, ReadsBack, HeadOf, IsBlankTest;
    if entries == [] {
      EmptyFile(blank);
    } else {
      var e, rest := entries[0], entries[1..];
      assert e in entries && forall x :: x in rest ==> x in entries;
      LinesRoundTrip(blank, special, rest);
      LinesAppend(HeadOf(e) + Written(special, e.cmd), FileOf(special, rest));
      EntryRoundTrip(blank, special, e, Lines(FileOf(special, rest)));
    }
  }

  lemma EmptyFile(blank: seq<Byte> -> bool)
    requires IsBlankTest(blank)
    ensures ParsedLines(blank, Lines([])) == []
  {
    LinesOfOne([]);
    var one: seq<seq<Byte>> := [[]];
    assert one[1..] == [];
  }

  /** The same for the whole file: headed commands keep their times, and the ones without a header are
      dated by their place among them. */
  lemma FileRoundTrip(blank: seq<Byte> -> bool, special: Byte -> bool, entries: seq<Stored>, end: int)
    requires IsBlankTest(blank) && IsSpecial(special)
    requires forall e :: e in entries ==> ReadsBack(blank, special, e)
    ensures var r := ParsedZsh(blank, FileOf(special, entries), end);
            && |r| == |entries|
            && forall i :: 0 <= i < |entries| ==>
                 && r[i].command == entries[i].cmd && r[i].durationMs == entries[i].elapsed * 1000
                 && (entries[i].start > 0 ==> r[i].startTime == entries[i].start * 1000)
                 && (r[i].approximate <==> entries[i].start == 0)
  {
    hide Lines, ParsedLines, ReadsBack, IsBlankTest, FileOf, DatedAt;
    LinesRoundTrip(blank, special, entries);
    var parsed := ParsedLines(blank, Lines(FileOf(special, entries)));
    forall i | 0 <= i < |entries|
      ensures AllDated(parsed, end)[i] == EntryFor(entries[i]) || entries[i].start == 0
      ensures AllDated(parsed, end)[i] == EntryFor(entries[i]).(startTime := AllDated(parsed, end)[i].startTime, approximate := true)
              || entries[i].start > 0
    {
      NothingElseChanges(parsed, end, i);
    }
  }

  /** What an odd line does: the gathered text is some other command's, and either it holds a backslash
      or it swallowed everything that was left. */
  lemma {:induction false} GatherGoesWrong(special: Byte -> bool, x: seq<Byte>, cmd: seq<Byte>) returns (other: seq<Byte>)
    requires IsSpecial(special) && EndsClear(x) && !LinesEndEven(cmd)
    ensures var lines := Lines(Written(special, cmd));
            var g := Gather(x + lines[0], lines[1..] + [[]]);
            other != cmd && g.cmd == x + Metafied(special, other) && (BACKSLASH in other || g.rest == [])
    decreases |cmd|
  {
    hide IndexOf, Metafied, Written, Lines, TrailingBackslashes, Gather;
    var i, lines := IndexOf(cmd, NEWLINE), Lines(Written(special, cmd));
    if i == |cmd| {
      other := LastLineGoesWrong(special, x, cmd);
    } else {
      WrittenLines(special, cmd);
      var line, tail := cmd[..i], cmd[i+1..];
      var acc := x + Metafied(special, line);
      TrailingKept(special, x, line);
      TrailingSnoc(acc, BACKSLASH);
      assert x + lines[0] == acc + [BACKSLASH];
      assert Lines(cmd)[0] == line && forall k :: 0 < k < |Lines(cmd)| ==> Lines(cmd)[k] == Lines(tail)[k-1];
      if Continues(line) {
        other := line + [BACKSLASH];
        WrongLine(special, x, line);
        GatherStops(acc + [BACKSLASH], lines[1..] + [[]]);
        assert other[i] != cmd[i];
      } else {
        var w := GatherGoesWrong(special, acc + [NEWLINE], tail);
        other := line + [NEWLINE] + w;
        GatherCarriesOn(special, acc, tail);
        WrongTail(special, x, line, tail, w);
        assert cmd == line + [NEWLINE] + tail;
      }
    }
  }

  lemma GatherStops(cmd: seq<Byte>, rest: seq<seq<Byte>>)
    requires !Continues(cmd)
    ensures Gather(cmd, rest) == Gathered(cmd, rest)
  {
  }

  lemma WrongLine(special: Byte -> bool, x: seq<Byte>, line: seq<Byte>)
    requires IsSpecial(special)
    ensures x + Metafied(special, line) + [BACKSLASH] == x + Metafied(special, line + [BACKSLASH])
  {
    hide Metafied;
    MetafiedAppend(special, line, [BACKSLASH]);
    MetafiedOne(special, BACKSLASH);
  }

  lemma WrongTail(special: Byte -> bool, x: seq<Byte>, line: seq<Byte>, tail: seq<Byte>, w: seq<Byte>)
    requires IsSpecial(special) && w != tail
    ensures line + [NEWLINE] + w != line + [NEWLINE] + tail
    ensures x + Metafied(special, line) + [NEWLINE] + Metafied(special, w) == x + Metafied(special, line + [NEWLINE] + w)
    ensures BACKSLASH in w ==> BACKSLASH in line + [NEWLINE] + w
  {
    hide Metafied;
    MetafiedAppend(special, line + [NEWLINE], w);
    MetafiedAppend(special, line, [NEWLINE]);
    MetafiedOne(special, NEWLINE);
    var a, b := line + [NEWLINE] + w, line + [NEWLINE] + tail;
    assert a[|line|+1..] == w && b[|line|+1..] == tail;
  }

  lemma GatherCarriesOn(special: Byte -> bool, acc: seq<Byte>, tail: seq<Byte>)
    requires Continues(acc + [BACKSLASH])
    ensures var later := Lines(Written(special, tail));
            Gather(acc + [BACKSLASH], later + [[]]) == Gather(acc + [NEWLINE] + later[0], later[1..] + [[]])
  {
    hide Written, Lines, Continues;
    var later := Lines(Written(special, tail));
    var rest := later + [[]];
    assert rest[0] == later[0] && rest[1..] == later[1..] + [[]];
    assert (acc + [BACKSLASH])[..|acc|] == acc;
  }

  lemma LastLineGoesWrong(special: Byte -> bool, x: seq<Byte>, cmd: seq<Byte>) returns (other: seq<Byte>)
    requires IsSpecial(special) && EndsClear(x) && !LinesEndEven(cmd) && IndexOf(cmd, NEWLINE) == |cmd|
    ensures var lines := Lines(Written(special, cmd));
            var g := Gather(x + lines[0], lines[1..] + [[]]);
            other != cmd && g.cmd == x + Metafied(special, other) && g.rest == []
  {
    hide IndexOf, Metafied, Written, Lines;
    WrittenOneLine(special, cmd);
    assert Lines(cmd)[0] == cmd;
    TrailingKept(special, x, cmd);
    var acc := x + Metafied(special, cmd);
    var lines := Lines(Written(special, cmd));
    var more: seq<seq<Byte>> := [[]];
    assert lines[1..] + more == more && more[1..] == [];
    var c := cmd[..|cmd|-1];
    assert cmd == c + [BACKSLASH];
    MetafiedAppend(special, c, [BACKSLASH]);
    MetafiedAppend(special, c, [NEWLINE]);
    MetafiedOne(special, BACKSLASH);
    MetafiedOne(special, NEWLINE);
    other := c + [NEWLINE];
    assert other[|c|] != cmd[|c|];
    assert acc[..|acc|-1] + [NEWLINE] + [] == x + Metafied(special, other);
    TrailingSnoc(acc[..|acc|-1], NEWLINE);
    assert acc[..|acc|-1] + [NEWLINE] + [] == acc[..|acc|-1] + [NEWLINE];
  }

  /** The exact condition: a single stored command reads back if and only if it is not blank and none
      of its lines ends in an odd number of backslashes. */
  lemma OneCommandReadsBackIff(blank: seq<Byte> -> bool, special: Byte -> bool, e: Stored)
    requires IsBlankTest(blank) && IsSpecial(special) && FitsInt64(e)
    ensures ParsedLines(blank, Lines(FileOf(special, [e]))) == [EntryFor(e)] <==> !blank(e.cmd) && LinesEndEven(e.cmd)
  {
    hide Gather, Written, Unmetafied, LinesEndEven, HeaderFor, IsBlankTest, Lines, ParsedLines, Digits, Metafied, FileOf;
    OneEntryFile(special, e);
    EmptyFile(blank);
    var more: seq<seq<Byte>> := [[]];
    LinesOfOne([]);
    if LinesEndEven(e.cmd) {
      if blank(e.cmd) {
        BlankIsSkipped(blank, special, e, more);
      } else {
        HeadedFits(blank, special, e);
        EntryRoundTrip(blank, special, e, more);
      }
    } else {
      var w := GatherGoesWrong(special, [], e.cmd);
      EntryLines(blank, special, e, more);
      var lines := Lines(Written(special, e.cmd));
      assert [] + lines[0] == lines[0] && [] + Metafied(special, w) == Metafied(special, w);
      UnmetafiedMetafied(special, w);
      NotBlank(blank, w);
      NoLines(blank);
      assert !blank(w) ==> ParsedLines(blank, Lines(FileOf(special, [e])))[0].command == w;
      assert [EntryFor(e)][0].command == e.cmd;
    }
  }

  lemma HeadedFits(blank: seq<Byte> -> bool, special: Byte -> bool, e: Stored)
    requires FitsInt64(e)
    ensures HeadReadsBack(blank, special, e)
  {
  }

  lemma NotBlank(blank: seq<Byte> -> bool, s: seq<Byte>)
    requires IsBlankTest(blank)
    ensures BACKSLASH in s ==> !blank(s)
  {
    if BACKSLASH in s {
      var i :| 0 <= i < |s| && s[i] == BACKSLASH;
    }
  }

  lemma OneEntryFile(special: Byte -> bool, e: Stored)
    requires e.start > 0
    ensures Lines(FileOf(special, [e])) == Lines(HeaderFor(e.start, e.elapsed) + Written(special, e.cmd)) + [[]]
  {
    hide Lines, HeaderFor, Written;
    var line := HeaderFor(e.start, e.elapsed) + Written(special, e.cmd);
    assert [e][1..] == [];
    LinesAppend(line, []);
    LinesOfOne([]);
    assert FileOf(special, [e]) == line + [NEWLINE] + [];
  }

  lemma BlankIsSkipped(blank: seq<Byte> -> bool, special: Byte -> bool, e: Stored, more: seq<seq<Byte>>)
    requires IsBlankTest(blank) && IsSpecial(special) && blank(e.cmd) && LinesEndEven(e.cmd)
    ensures ParsedLines(blank, Lines(HeaderFor(e.start, e.elapsed) + Written(special, e.cmd)) + more) == ParsedLines(blank, more)
  {
    hide Gather, Written, EntryOf, Unmetafied, LinesEndEven, HeaderFor, IsBlankTest, Lines, ParsedLines, Digits, Metafied;
    EntryLines(blank, special, e, more);
    var w := Lines(Written(special, e.cmd));
    GatherWritten(special, [], e.cmd, more);
    assert [] + w[0] == w[0] && [] + Metafied(special, e.cmd) == Metafied(special, e.cmd);
    UnmetafiedMetafied(special, e.cmd);
  }
}

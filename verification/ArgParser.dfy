/** The in-place argument parser of the shell (apps/esh/esh_argparser.c) against a pure splitter
    that knows quotes. */
module ArgParser {

  const BUFFER_LEN: nat := 200  // ESH_BUFFER_LEN
  const ARGC_MAX: nat := 10     // ESH_ARGC_MAX
  const NUL: char := '\0'

  // ---- the splitter

  predicate IsQuote(c: char) {
    c == '\'' || c == '\"'
  }

  /** Up to the closing quote, or to the end of the line. */
  function Quoted(s: string, q: char): (n: nat)
    ensures n <= |s| && (n < |s| ==> s[n] == q) && forall i | 0 <= i < n :: s[i] != q
  {
    if s == [] || s[0] == q then 0 else 1 + Quoted(s[1..], q)
  }

  /** What the front of a line is: a space, or n characters that stand for w. */
  datatype Piece = Space | Text(w: string, n: nat)

  /** The front of a line: a space, a quoted text with its quotes, or one character. */
  function Front(s: string): (p: Piece)
    requires s != []
    ensures p.Text? ==> 1 <= p.n <= |s| && |p.w| <= p.n
  {
    if s[0] == ' ' then Space
    else if IsQuote(s[0]) then
      var k := Quoted(s[1..], s[0]);
      Text(s[1..1 + k], if 1 + k < |s| then k + 2 else k + 1)
    else Text([s[0]], 1)
  }

  /** The arguments of a line; `word` is what has been read of an open one. */
  function Split(s: string, open: bool, word: string): seq<string>
    decreases |s|
  {
    if s == [] then (if open then [word] else [])
    else
      match Front(s)
      case Space => (if open then [word] else []) + Split(s[1..], false, "")
      case Text(w, n) => Split(s[n..], true, word + w)
  }

  function Args(s: string): seq<string> {
    Split(s, false, "")
  }

  // ---- quoting

  /** The arguments, each between quotes of its own, with spaces between them. */
  function Quote(args: seq<string>, qs: string): string
    requires |args| == |qs|
  {
    if args == [] then ""
    else [qs[0]] + args[0] + [qs[0]] + if |args| == 1 then "" else " " + Quote(args[1..], qs[1..])
  }

  lemma {:induction false} QuotedIs(w: string, q: char, r: string)
    requires q !in w
    ensures Quoted(w + [q] + r, q) == |w|
  {
    var s := w + [q] + r;
    if w != [] {
      assert s[1..] == w[1..] + [q] + r;
      QuotedIs(w[1..], q, r);
    }
  }

  lemma FrontQuoted(w: string, q: char, r: string)
    requires IsQuote(q) && q !in w
    ensures
      var s := [q] + w + [q] + r;
      Front(s) == Text(w, |w| + 2) && s[|w| + 2..] == r
  {
    var s := [q] + w + [q] + r;
    assert s[1..] == w + [q] + r;
    QuotedIs(w, q, r);
    assert s[1..1 + |w|] == w;
  }

  lemma SplitQuoted(w: string, q: char, r: string)
    requires IsQuote(q) && q !in w
    ensures Args([q] + w + [q] + r) == Split(r, true, w)
  {
    FrontQuoted(w, q, r);
    assert "" + w == w;
  }

  lemma SplitAfter(w: string, rest: string)
    ensures Split("", true, w) == [w] && Split(" " + rest, true, w) == [w] + Args(rest)
  {
    assert (" " + rest)[1..] == rest;
  }

  /** Parsing what was quoted gives the arguments back. */
  lemma {:induction false} QuoteRoundTrip(args: seq<string>, qs: string)
    requires |args| == |qs| && forall k | 0 <= k < |args| :: IsQuote(qs[k]) && qs[k] !in args[k]
    ensures Args(Quote(args, qs)) == args
  {
    if args != [] {
      var w, q, rest := args[0], qs[0], Quote(args[1..], qs[1..]);
      assert args == [w] + args[1..];
      SplitAfter(w, rest);
      SplitQuoted(w, q, if |args| == 1 then "" else " " + rest);
      if |args| > 1 {
        QuoteRoundTrip(args[1..], qs[1..]);
      }
    }
  }

  // ---- what the parser leaves in the buffer

  /** The compacted line: quotes are gone, every space is a NUL. */
  function Compact(s: string): (r: string)
    ensures |r| <= |s|
    decreases |s|
  {
    if s == [] then []
    else
      match Front(s)
      case Space => [NUL] + Compact(s[1..])
      case Text(w, n) => w + Compact(s[n..])
  }

  /** Where the arguments begin, when the rest s of the line is written from dest on. */
  function Starts(s: string, open: bool, dest: nat): (r: seq<nat>)
    ensures forall k | 0 <= k < |r| :: r[k] <= dest + |Compact(s)|
    decreases |s|
  {
    if s == [] then []
    else
      match Front(s)
      case Space => Starts(s[1..], false, dest + 1)
      case Text(w, n) => (if open then [] else [dest]) + Starts(s[n..], true, dest + |w|)
  }

  /** The C string at i: up to the first NUL. */
  function CStr(b: string, i: nat): string
    decreases |b| - i
  {
    if i >= |b| || b[i] == NUL then [] else [b[i]] + CStr(b, i + 1)
  }

  /** w stands at i with a NUL behind it. */
  ghost predicate Stands(b: string, i: nat, w: string) {
    i + |w| < |b| && b[i..i + |w|] == w && b[i + |w|] == NUL
  }

  /** A text without a NUL that stands at i is the C string there. */
  lemma {:induction false} StandsIsCStr(b: string, i: nat, w: string)
    requires Stands(b, i, w) && NUL !in w
    ensures CStr(b, i) == w
    decreases |w|
  {
    if w != [] {
      assert b[i] == b[i..i + |w|][0];
      assert w[1..] == b[i + 1..i + |w|];
      StandsIsCStr(b, i + 1, w[1..]);
    }
  }

  lemma StandsOver(b: string, i: nat, w: string, v: string)
    requires i + |w| <= |b| && b[i..i + |w|] == w && Stands(b, i + |w|, v)
    ensures Stands(b, i, w + v)
  {
    assert b[i..i + |w + v|] == b[i..i + |w|] + b[i + |w|..i + |w| + |v|];
  }

  /** The arguments xs stand at the places st. */
  ghost predicate Reads(b: string, xs: seq<string>, st: seq<nat>) {
    |xs| == |st| && forall k | 0 <= k < |xs| :: Stands(b, st[k], xs[k])
  }

  /** The same, and when a word is open the first argument continues it. */
  ghost predicate ReadsLine(b: string, xs: seq<string>, open: bool, word: string, dest: nat, st: seq<nat>) {
    if open then xs != [] && word <= xs[0] && Stands(b, dest, xs[0][|word|..]) && Reads(b, xs[1..], st) else Reads(b, xs, st)
  }

  lemma ReadSpace(b: string, xs: seq<string>, open: bool, word: string, dest: nat, st: seq<nat>)
    requires dest < |b| && b[dest] == NUL
    ensures Reads(b, xs, st) ==> ReadsLine(b, (if open then [word] else []) + xs, open, word, dest, st)
  {
    assert word[|word|..] == "" == b[dest..dest];
    assert ([word] + xs)[1..] == xs && [] + xs == xs;
  }

  lemma ReadsFirst(b: string, xs: seq<string>, dest: nat, st: seq<nat>)
    requires xs != [] && Stands(b, dest, xs[0]) && Reads(b, xs[1..], st)
    ensures Reads(b, xs, [dest] + st)
  {
    forall k | 0 <= k < |xs| ensures Stands(b, ([dest] + st)[k], xs[k]) {
      if k > 0 {
        assert xs[k] == xs[1..][k - 1];
      }
    }
  }

  lemma ReadText(b: string, xs: seq<string>, open: bool, word: string, dest: nat, w: string, st: seq<nat>)
    requires dest + |w| <= |b| && b[dest..dest + |w|] == w && (!open ==> word == "")
    ensures ReadsLine(b, xs, true, word + w, dest + |w|, st) ==>
              ReadsLine(b, xs, open, word, dest, (if open then [] else [dest]) + st)
  {
    if ReadsLine(b, xs, true, word + w, dest + |w|, st) {
      var v := xs[0][|word + w|..];
      assert xs[0][..|word + w|] == word + w;
      assert xs[0][|word|..] == w + v;
      StandsOver(b, dest, w, v);
      assert [] + st == st;
      if !open {
        assert xs[0][0..] == xs[0];
        ReadsFirst(b, xs, dest, st);
      }
    }
  }

  lemma TextStep(b: string, dest: nat, w: string, r: string)
    requires dest <= |b| && b[dest..] == w + r + [NUL]
    ensures dest + |w| <= |b| && b[dest + |w|..] == r + [NUL] && b[dest..dest + |w|] == w
  {
    assert b[dest + |w|..] == b[dest..][|w|..];
    assert b[dest..dest + |w|] == b[dest..][..|w|];
  }

  /** The rest s of a line, compacted at dest, reads back as the splitter says. */
  ghost predicate Good(b: string, s: string, open: bool, word: string, dest: nat) {
    ReadsLine(b, Split(s, open, word), open, word, dest, Starts(s, open, dest))
  }

  lemma GoodSpace(b: string, s: string, open: bool, word: string, dest: nat)
    requires s != [] && Front(s).Space? && dest < |b| && b[dest] == NUL
    ensures Good(b, s[1..], false, "", dest + 1) ==> Good(b, s, open, word, dest)
  {
    ReadSpace(b, Split(s[1..], false, ""), open, word, dest, Starts(s[1..], false, dest + 1));
  }

  lemma GoodText(b: string, s: string, open: bool, word: string, dest: nat, w: string, n: nat)
    requires s != [] && Front(s) == Text(w, n) && (!open ==> word == "")
    requires dest + |w| <= |b| && b[dest..dest + |w|] == w
    ensures Good(b, s[n..], true, word + w, dest + |w|) ==> Good(b, s, open, word, dest)
  {
    ReadText(b, Split(s[n..], true, word + w), open, word, dest, w, Starts(s[n..], true, dest + |w|));
  }

  lemma BackEnd(b: string, open: bool, word: string, dest: nat)
    requires dest <= |b| && b[dest..] == [NUL]
    ensures Good(b, [], open, word, dest)
  {
    assert b[dest] == b[dest..][0];
    assert word[|word|..] == "" == b[dest..dest];
  }

  /** Reading the compacted line back gives the arguments of the splitter. */
  lemma {:induction false} ReadBack(b: string, s: string, open: bool, word: string, dest: nat)
    requires dest <= |b| && b[dest..] == Compact(s) + [NUL] && (!open ==> word == "")
    ensures Good(b, s, open, word, dest)
    decreases |s|
  {
    if s == [] {
      BackEnd(b, open, word, dest);
    } else if Front(s).Space? {
      TextStep(b, dest, [NUL], Compact(s[1..]));
      assert b[dest] == b[dest..][0];
      ReadBack(b, s[1..], false, "", dest + 1);
      GoodSpace(b, s, open, word, dest);
    } else {
      var w, n := Front(s).w, Front(s).n;
      TextStep(b, dest, w, Compact(s[n..]));
      ReadBack(b, s[n..], true, word + w, dest + |w|);
      GoodText(b, s, open, word, dest, w, n);
    }
  }

  lemma StandsFront(b: string, n: nat, i: nat, w: string)
    requires n <= |b| && Stands(b[..n], i, w)
    ensures Stands(b, i, w)
  {
    assert b[i..i + |w|] == b[..n][i..i + |w|];
  }

  lemma SpaceParts(s: string, open: bool, dest: nat, r: string)
    requires s != [] && Front(s) == Space && r == s[1..]
    ensures Compact(s) == [NUL] + Compact(r) && Starts(s, open, dest) == Starts(r, false, dest + 1)
  {
  }

  /** What the finished buffer b with the compacted line says. */
  lemma Finished(line: string, b: string, dest: nat, starts: seq<nat>)
    requires dest < |b| && b[dest] == NUL && Compact(line) == b[..dest] && Starts(line, false, 0) == starts
    ensures Reads(b, Args(line), starts)
  {
    var f := b[..dest + 1];
    assert f[0..] == Compact(line) + [NUL];
    ReadBack(f, line, false, "", 0);
    forall k | 0 <= k < |starts| ensures Stands(b, starts[k], Args(line)[k]) {
      StandsFront(b, dest + 1, starts[k], Args(line)[k]);
    }
  }

  // ---- the parser

  /** The line up to i has been compacted to out, dest characters, and its arguments begin at
      starts. */
  ghost predicate Progress(line: string, out: string, dest: nat, i: nat, open: bool, starts: seq<nat>) {
    && i <= |line| && |out| == dest <= i
    && Compact(line) == out + Compact(line[i..])
    && Starts(line, false, 0) == starts + Starts(line[i..], open, dest)
  }

  lemma Joined<T>(x: seq<T>, a: seq<T>, b: seq<T>, c: seq<T>, d: seq<T>)
    requires x == a + b && b == c + d
    ensures x == a + c + d
  {
  }

  lemma StartsJoined(x: seq<nat>, a: seq<nat>, b: seq<nat>, open: bool, dest: nat, d: seq<nat>)
    requires x == a + b && b == (if open then [] else [dest]) + d
    ensures x == (if open then a else a + [dest]) + d
  {
  }

  lemma ProgressSpace(line: string, out: string, dest: nat, i: nat, open: bool, starts: seq<nat>)
    requires Progress(line, out, dest, i, open, starts) && i < |line| && Front(line[i..]).Space?
    ensures Progress(line, out + [NUL], dest + 1, i + 1, false, starts)
  {
    var s, r := line[i..], line[i + 1..];
    assert s[1..] == r;
    SpaceParts(s, open, dest, r);
    Joined(Compact(line), out, Compact(s), [NUL], Compact(r));
  }

  lemma CompactText(line: string, out: string, i: nat, w: string, n: nat, out': string, i': nat)
    requires i < |line| && Front(line[i..]) == Text(w, n) && Compact(line) == out + Compact(line[i..])
    requires out' == out + w && i' == i + n
    ensures Compact(line) == out' + Compact(line[i'..])
  {
    var s, r := line[i..], line[i'..];
    assert s[n..] == r;
    Joined(Compact(line), out, Compact(s), w, Compact(r));
  }

  lemma TextStarts(s: string, open: bool, dest: nat, w: string, n: nat, r: string, dest': nat)
    requires s != [] && Front(s) == Text(w, n) && r == s[n..] && dest' == dest + |w|
    ensures Starts(s, open, dest) == (if open then [] else [dest]) + Starts(r, true, dest')
  {
    assert s[n..] == r;
  }

  lemma StartsText(line: string, dest: nat, i: nat, open: bool, starts: seq<nat>, w: string, n: nat,
                   dest': nat, i': nat, starts': seq<nat>)
    requires i < |line| && Front(line[i..]) == Text(w, n) && Starts(line, false, 0) == starts + Starts(line[i..], open, dest)
    requires dest' == dest + |w| && i' == i + n && starts' == if open then starts else starts + [dest]
    ensures Starts(line, false, 0) == starts' + Starts(line[i'..], true, dest')
  {
    var s, r := line[i..], line[i'..];
    assert s[n..] == r;
    TextStarts(s, open, dest, w, n, r, dest');
    StartsJoined(Starts(line, false, 0), starts, Starts(s, open, dest), open, dest, Starts(r, true, dest'));
  }

  /** An argument text; it begins an argument unless a word is open. */
  lemma ProgressText(line: string, out: string, dest: nat, i: nat, open: bool, starts: seq<nat>, w: string, n: nat,
                     out': string, dest': nat, i': nat, starts': seq<nat>)
    requires Progress(line, out, dest, i, open, starts) && i < |line| && Front(line[i..]) == Text(w, n)
    requires out' == out + w && dest' == dest + |w| && i' == i + n && starts' == if open then starts else starts + [dest]
    ensures Progress(line, out', dest', i', true, starts')
  {
    CompactText(line, out, i, w, n, out', i');
    StartsText(line, dest, i, open, starts, w, n, dest', i', starts');
  }

  /** consume_quoted: the characters up to the closing quote move down to dest. */
  method ConsumeQuoted(buf: array<char>, cnt: nat, src0: nat, dest0: nat) returns (src: nat, dest: nat)
    requires dest0 <= src0 < cnt <= buf.Length
    modifies buf
    ensures
      var s, q := old(buf[src0 + 1..cnt]), old(buf[src0]);
      && src == src0 + 1 + Quoted(s, q) && dest == dest0 + Quoted(s, q)
      && buf[..dest] == old(buf[..dest0]) + s[..Quoted(s, q)]
    ensures dest < src && forall k | dest <= k < buf.Length :: buf[k] == old(buf[k])
  {
    var quote := buf[src0];
    src, dest := src0 + 1, dest0;
    ghost var s := old(buf[src0 + 1..cnt]);
    while src < cnt && buf[src] != quote
      invariant src0 < src <= cnt && dest == dest0 + (src - src0 - 1)
      invariant forall k | 0 <= k < dest0 :: buf[k] == old(buf[k])
      invariant forall k | dest0 <= k < dest :: buf[k] == s[k - dest0]
      invariant forall k | dest <= k < buf.Length :: buf[k] == old(buf[k])
      invariant src - src0 - 1 <= Quoted(s, quote)
      decreases cnt - src
    {
      assert buf[src] == s[src - src0 - 1];
      buf[dest] := buf[src];
      src, dest := src + 1, dest + 1;
    }
    assert src < cnt ==> s[src - src0 - 1] == quote;
  }

  /** One argument text at i: a quoted part or one character goes to dest. The source counts one
      too far behind a quote that is not closed: `at` is the true place in the line. */
  method CopyText(buf: array<char>, cnt: nat, i0: nat, dest0: nat) returns (i: nat, dest: nat, ghost at: nat, ghost p: Piece)
    requires dest0 <= i0 < cnt <= buf.Length && buf[i0] != ' '
    modifies buf
    ensures p == Front(old(buf[i0..cnt])) && p.Text? && at == i0 + p.n <= cnt && (i == at || (i == cnt + 1 && at == cnt))
    ensures dest == dest0 + |p.w| <= at && buf[..dest] == old(buf[..dest0]) + p.w
    ensures forall k | dest <= k < buf.Length :: buf[k] == old(buf[k])
  {
    ghost var s := buf[i0..cnt];
    assert s[0] == buf[i0] && s[1..] == buf[i0 + 1..cnt];
    p := Front(s);
    at := i0 + p.n;
    if IsQuote(buf[i0]) {
      i, dest := ConsumeQuoted(buf, cnt, i0, dest0);
    } else {
      i, dest := i0, dest0 + 1;
      buf[dest0] := buf[i0];
    }
    i := i + 1;
  }

  /** Nothing from dest on has been written, so that with dest <= i what has not been read yet is
      still the line: `was` is the buffer at the start. */
  ghost predicate Behind(buf: array<char>, was: string, dest: nat, i: nat)
    reads buf
  {
    |was| == buf.Length && dest <= i && forall k | dest <= k < |was| :: buf[k] == was[k]
  }

  /** A space at i. */
  method StepSpace(buf: array<char>, cnt: nat, i: nat, dest: nat, ghost open: bool, ghost was: string, ghost line: string, ghost starts: seq<nat>)
    requires Behind(buf, was, dest, i) && cnt <= |was| && line == was[..cnt] && i < cnt && buf[i] == ' '
    requires Progress(line, buf[..dest], dest, i, open, starts)
    modifies buf
    ensures Behind(buf, was, dest + 1, i + 1) && Progress(line, buf[..dest + 1], dest + 1, i + 1, false, starts)
  {
    ghost var out := buf[..dest];
    ProgressSpace(line, out, dest, i, open, starts);
    buf[dest] := NUL;
    assert buf[..dest + 1] == out + [NUL];
  }

  /** Anything else at i. */
  method StepText(buf: array<char>, cnt: nat, i0: nat, dest0: nat, ghost open: bool, ghost was: string, ghost line: string, ghost starts: seq<nat>)
    returns (i: nat, dest: nat, ghost at: nat, ghost starts': seq<nat>)
    requires Behind(buf, was, dest0, i0) && cnt <= |was| && line == was[..cnt] && i0 < cnt && buf[i0] != ' '
    requires Progress(line, buf[..dest0], dest0, i0, open, starts)
    modifies buf
    ensures i0 < at <= cnt && (i == at || (i == cnt + 1 && at == cnt)) && Behind(buf, was, dest, at)
    ensures starts' == if open then starts else starts + [dest0]
    ensures Progress(line, buf[..dest], dest, at, true, starts')
  {
    ghost var out, p := buf[..dest0], Space;
    assert buf[i0..cnt] == line[i0..];
    i, dest, at, p := CopyText(buf, cnt, i0, dest0);
    starts' := if open then starts else starts + [dest0];
    ProgressText(line, out, dest0, i0, open, starts, p.w, p.n, buf[..dest], dest, at, starts');
  }

  /** The places that argv has room for. */
  function Capped(starts: seq<nat>): seq<nat> {
    if |starts| <= ARGC_MAX then starts else starts[..ARGC_MAX]
  }

  /** The front at i; start is where its text goes. */
  method StepAny(buf: array<char>, cnt: nat, i0: nat, start: nat, open: bool, ghost was: string, ghost line: string, ghost starts: seq<nat>)
    returns (i: nat, dest: nat, open': bool, ghost at: nat, ghost starts': seq<nat>)
    requires Behind(buf, was, start, i0) && cnt <= |was| && line == was[..cnt] && i0 < cnt
    requires Progress(line, buf[..start], start, i0, open, starts)
    modifies buf
    ensures i0 < at <= cnt && (i == at || (i == cnt + 1 && at == cnt)) && Behind(buf, was, dest, at)
    ensures Progress(line, buf[..dest], dest, at, open', starts')
    ensures starts' == if open' && !open then starts + [start] else starts
  {
    open' := buf[i0] != ' ';
    if open' {
      i, dest, at, starts' := StepText(buf, cnt, i0, start, open, was, line, starts);
    } else {
      StepSpace(buf, cnt, i0, start, open, was, line, starts);
      i, dest, at, starts' := i0 + 1, start + 1, i0 + 1, starts;
    }
  }

  /** The loop of esh_parse_args: the line is compacted in place. */
  method Scan(buf: array<char>, cnt: nat) returns (argc: nat, argv: seq<nat>, dest: nat, ghost starts: seq<nat>)
    requires cnt <= buf.Length
    modifies buf
    ensures Behind(buf, old(buf[..]), dest, cnt)
    ensures Compact(old(buf[..])[..cnt]) == buf[..dest] && Starts(old(buf[..])[..cnt], false, 0) == starts
    ensures argc == |starts| && argv == Capped(starts)
  {
    ghost var was, line := buf[..], buf[..][..cnt];
    ghost var at: nat := 0;
    starts := [];
    argc, argv, dest := 0, [], 0;
    var i: nat, open := 0, false;
    assert line[0..] == line;
    while i < cnt
      invariant at <= cnt && (i == at || (i == cnt + 1 && at == cnt)) && Behind(buf, was, dest, at)
      invariant Progress(line, buf[..dest], dest, at, open, starts)
      invariant argc == |starts| && argv == Capped(starts)
      decreases cnt + 1 - i
    {
      var start, inside := dest, open;
      i, dest, open, at, starts := StepAny(buf, cnt, i, dest, open, was, line, starts);
      if open && !inside {
        if argc < ARGC_MAX {
          argv := argv + [start];
        }
        argc := argc + 1;
      }
    }
    FinishLine(line, buf[..dest], dest, open, starts);
  }

  /** The first ARGC_MAX arguments stand in b at the places argv, as C strings unless the line
      itself has a NUL in one. */
  ghost predicate Parsed(b: string, args: seq<string>, argv: seq<nat>) {
    && |argv| == (if |args| < ARGC_MAX then |args| else ARGC_MAX)
    && forall k | 0 <= k < |argv| :: Stands(b, argv[k], args[k]) && (NUL !in args[k] ==> CStr(b, argv[k]) == args[k])
  }

  lemma ReadsIsParsed(b: string, args: seq<string>, starts: seq<nat>)
    requires Reads(b, args, starts)
    ensures Parsed(b, args, Capped(starts))
  {
    forall k | 0 <= k < |args| && NUL !in args[k] ensures CStr(b, starts[k]) == args[k] {
      StandsIsCStr(b, starts[k], args[k]);
    }
  }

  /** esh_parse_args. Behind the compacted line, which is no longer than the line, only its NUL
      and the last NUL are written. */
  method ParseArgs(buf: array<char>, cnt: nat) returns (argc: nat, argv: seq<nat>)
    requires buf.Length == BUFFER_LEN + 1 && cnt <= BUFFER_LEN
    modifies buf
    ensures argc == |Args(old(buf[..])[..cnt])| && Parsed(buf[..], Args(old(buf[..])[..cnt]), argv)
    ensures
      var n := |Compact(old(buf[..])[..cnt])|;
      n <= cnt && forall k | n < k < BUFFER_LEN :: buf[k] == old(buf[k])
  {
    ghost var was, starts: seq<nat> := buf[..], [];
    var dest: nat;
    argc, argv, dest, starts := Scan(buf, cnt);
    Terminate(buf, cnt, dest, was, starts);
    ReadsIsParsed(buf[..], Args(was[..cnt]), starts);
  }

  /** The final NULs. */
  method Terminate(buf: array<char>, cnt: nat, dest: nat, ghost was: string, ghost starts: seq<nat>)
    requires buf.Length == BUFFER_LEN + 1 && cnt <= BUFFER_LEN && Behind(buf, was, dest, cnt)
    requires Compact(was[..cnt]) == buf[..dest] && Starts(was[..cnt], false, 0) == starts
    modifies buf
    ensures Reads(buf[..], Args(was[..cnt]), starts)
    ensures forall k | dest < k < BUFFER_LEN :: buf[k] == was[k]
  {
    ghost var out := buf[..dest];
    buf[dest] := NUL;
    buf[BUFFER_LEN] := NUL;
    assert buf[..][..dest] == out;
    Finished(was[..cnt], buf[..], dest, starts);
  }

  lemma FinishLine(line: string, out: string, dest: nat, open: bool, starts: seq<nat>)
    requires Progress(line, out, dest, |line|, open, starts)
    ensures Compact(line) == out && Starts(line, false, 0) == starts
  {
    assert line[|line|..] == [] && out + [] == out && starts + [] == starts;
  }
}

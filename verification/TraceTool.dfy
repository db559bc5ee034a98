/** The trace tool: a stream of executed code, plain or compressed (pin-tools/trace_archlab.cpp).

    Compressed, every instrumented block is written once, after a line with its number, and
    each execution writes the number only.  The reader below restores the plain stream. */
module TraceTool {
  /** A block is the disassembly of its instructions, one line each. */
  type Block = seq<string>

  const UINT32: nat := 0x1_0000_0000

  // ---------- numbers in decimal ----------

  function Digit(d: nat): char
    requires d < 10
  {
    "0123456789"[d]
  }

  function Dec(n: nat): (s: string)
    ensures |s| > 0
  {
    if n < 10 then [Digit(n)] else Dec(n / 10) + [Digit(n % 10)]
  }

  predicate IsDigit(c: char) { '0' <= c <= '9' }

  lemma {:induction false} DecDigits(n: nat, k: nat)
    requires k < |Dec(n)|
    ensures IsDigit(Dec(n)[k])
  {
    if n >= 10 && k < |Dec(n)| - 1 { DecDigits(n / 10, k); }
  }

  lemma {:induction false} DecInjective(m: nat, n: nat)
    requires Dec(m) == Dec(n)
    ensures m == n
  {
    var a, b := Dec(m), Dec(n);
    assert a[|a| - 1] == Digit(m % 10) && b[|b| - 1] == Digit(n % 10);
    assert m % 10 == n % 10;
    if m >= 10 && n >= 10 {
      assert Dec(m / 10) == a[..|a| - 1] && Dec(n / 10) == b[..|b| - 1];
      DecInjective(m / 10, n / 10);
    }
  }

  /** The number that a text of digits stands for. */
  function Value(s: string): int {
    if s == "" then 0 else 10 * Value(s[..|s| - 1]) + (s[|s| - 1] as int - '0' as int)
  }

  /** Digits only, with the value of the number and no leading zero. */
  lemma {:induction false} DecExact(n: nat)
    ensures Value(Dec(n)) == n && (forall k :: 0 <= k < |Dec(n)| ==> IsDigit(Dec(n)[k]))
    ensures Dec(n)[0] == '0' ==> n == 0 && Dec(n) == "0"
  {
    forall k | 0 <= k < |Dec(n)| ensures IsDigit(Dec(n)[k]) { DecDigits(n, k); }
    if n >= 10 {
      DecExact(n / 10);
      assert Dec(n)[..|Dec(n)| - 1] == Dec(n / 10);
    } else {
      assert Dec(n)[..0] == "";
    }
  }

  // ---------- the tool ----------

  datatype Event =
    | Tracing(on: bool)
    | Instrument(trace: seq<Block>)
    | Execute(block: nat)

  /** `calls` are the strings that the calls inserted so far will write, one for each
      instrumented block; `count` is the 32-bit block counter. */
  datatype Tool = Tool(file: string, count: nat, calls: seq<string>, tracing: bool)

  function Text(b: Block): string {
    if b == [] then "" else Text(b[..|b| - 1]) + "%" + b[|b| - 1] + "\n"
  }

  /** One line for each instruction, after a percent sign. */
  lemma TextIs(b: Block, l: string)
    ensures Text([]) == "" && Text(b + [l]) == Text(b) + "%" + l + "\n"
  {
    assert (b + [l])[..|b|] == b;
  }

  function InstrumentBlock(compress: bool, t: Tool, b: Block): Tool {
    if !compress then t.(calls := t.calls + [Text(b)])
    else
      var id := (t.count + 1) % UINT32;
      t.(count := id, file := t.file + "@" + Dec(id) + "\n" + Text(b), calls := t.calls + [Dec(id) + "\n"])
  }

  function InstrumentAll(compress: bool, t: Tool, bs: seq<Block>): (t': Tool)
    ensures |t'.calls| == |t.calls| + |bs|
  {
    if bs == [] then t else InstrumentBlock(compress, InstrumentAll(compress, t, bs[..|bs| - 1]), bs[|bs| - 1])
  }

  /** Only code seen while tracing is instrumented; only instrumented blocks make calls. */
  function Next(compress: bool, t: Tool, e: Event): Tool
    requires e.Execute? ==> e.block < |t.calls|
  {
    match e
    case Tracing(on) => t.(tracing := on)
    case Instrument(bs) => if t.tracing then InstrumentAll(compress, t, bs) else t
    case Execute(k) => t.(file := t.file + t.calls[k])
  }

  /** Written word by word: the solver takes no longer literals apart. */
  const TITLE := "# Compressed" + " Instruction" + " Trace" + " Generated" + " By Pin"
  const HEADER := ("#" + "\n") + (TITLE + "\n") + ("#" + "\n")
  const FOOTER := "# eof" + "\n"

  function Start(tracing: bool): Tool { Tool(HEADER, 0, [], tracing) }

  ghost predicate Possible(compress: bool, tracing: bool, es: seq<Event>)
    decreases |es|, 0
  {
    es == [] ||
    (Possible(compress, tracing, es[..|es| - 1]) &&
     (es[|es| - 1].Execute? ==> es[|es| - 1].block < |Run(compress, tracing, es[..|es| - 1]).calls|))
  }

  ghost function Run(compress: bool, tracing: bool, es: seq<Event>): Tool
    requires Possible(compress, tracing, es)
    decreases |es|, 1
  {
    if es == [] then Start(tracing) else Next(compress, Run(compress, tracing, es[..|es| - 1]), es[|es| - 1])
  }

  class Tracer {
    const compress: bool
    var file: string
    var count: nat
    var calls: seq<string>
    var tracing: bool

    function State(): Tool
      reads this
    {
      Tool(file, count, calls, tracing)
    }

    constructor (compress: bool, tracing: bool)
      ensures this.compress == compress && State() == Start(tracing)
    {
      this.compress := compress;
      file, count, calls, this.tracing := HEADER, 0, [], tracing;
    }

    method SetTracing(on: bool)
      modifies this`tracing
      ensures tracing == on && State() == Next(compress, old(State()), Tracing(on))
    {
      tracing := on;
    }

    /** Instrumentation of a trace of blocks. */
    method Trace(bs: seq<Block>)
      modifies this`file, this`count, this`calls
      ensures State() == Next(compress, old(State()), Instrument(bs))
      ensures !tracing ==> file == old(file) && calls == old(calls) && count == old(count)
      ensures tracing ==> |calls| == |old(calls)| + |bs| && old(calls) <= calls
      ensures tracing && !compress ==>
        file == old(file) && forall k :: 0 <= k < |bs| ==> calls[|old(calls)| + k] == Text(bs[k])
    {
      if !tracing { return; }
      TextsAdded(compress, State(), bs);
      for i := 0 to |bs|
        invariant State() == InstrumentAll(compress, old(State()), bs[..i])
      {
        var traceString := "";
        for k := 0 to |bs[i]|
          invariant traceString == Text(bs[i][..k])
          invariant State() == InstrumentAll(compress, old(State()), bs[..i])
        {
          assert bs[i][..k + 1][..k] == bs[i][..k];
          traceString := traceString + "%" + bs[i][k] + "\n";
        }
        assert bs[i][..|bs[i]|] == bs[i];
        assert bs[..i + 1][..i] == bs[..i];
        if !compress {
          calls := calls + [traceString];
        } else {
          count := (count + 1) % UINT32;
          file := file + "@" + Dec(count) + "\n" + traceString;
          calls := calls + [Dec(count) + "\n"];
        }
      }
      assert bs[..|bs|] == bs;
    }

    /** The call inserted for block k. */
    method DoCount(k: nat)
      requires k < |calls|
      modifies this`file
      ensures file == old(file) + calls[k] && State() == Next(compress, old(State()), Execute(k))
    {
      file := file + calls[k];
    }
  }

  // ---------- the reader ----------

  /** `current` is the block being defined, `line` the characters of an unfinished line. */
  datatype Reader = Reader(line: string, blocks: map<string, string>, current: string, out: string)

  function ReadLine(r: Reader): Reader {
    var l := r.line;
    var r' := r.(line := "");
    if l == "" then r'
    else if l[0] == '@' then r'.(current := l[1..], blocks := r.blocks[l[1..] := ""])
    else if l[0] == '%' then
      if r.current in r.blocks then r'.(blocks := r.blocks[r.current := r.blocks[r.current] + l + "\n"]) else r'
    else if l[0] == '#' then r'.(out := r.out + l + "\n")
    else if l in r.blocks then r'.(out := r.out + r.blocks[l])
    else r'
  }

  function Feed(r: Reader, s: string): Reader {
    if s == "" then r
    else
      var p, c := Feed(r, s[..|s| - 1]), s[|s| - 1];
      if c == '\n' then ReadLine(p) else p.(line := p.line + [c])
  }

  /** The plain stream that a compressed one stands for. */
  function Expand(file: string): string { Feed(Reader("", map[], "", ""), file).out }

  lemma {:induction false} FeedConcat(r: Reader, s: string, t: string)
    ensures Feed(r, s + t) == Feed(Feed(r, s), t)
  {
    if t == "" {
      assert s + t == s;
    } else {
      var n := |t| - 1;
      FeedConcat(r, s, t[..n]);
      assert (s + t)[..|s| + n] == s + t[..n];
    }
  }

  lemma {:induction false} FeedChars(r: Reader, s: string)
    requires '\n' !in s
    ensures Feed(r, s) == r.(line := r.line + s)
  {
    if s != "" {
      FeedChars(r, s[..|s| - 1]);
      assert s == s[..|s| - 1] + [s[|s| - 1]];
    }
  }

  lemma FeedLine(r: Reader, l: string)
    requires r.line == "" && '\n' !in l
    ensures Feed(r, l + "\n") == ReadLine(r.(line := l))
  {
    FeedConcat(r, l, "\n");
    FeedChars(r, l);
    assert "" + l == l;
    var p := Feed(r, l);
    assert Feed(p, "\n") == ReadLine(Feed(p, "\n"[..0]));
  }

  ghost predicate Lines(b: Block) {
    forall l :: l in b ==> '\n' !in l
  }

  lemma TextStep(b: Block)
    requires b != []
    ensures Text(b) == Text(b[..|b| - 1]) + ("%" + b[|b| - 1] + "\n")
  {
  }

  lemma ReadPercent(r: Reader, l: string)
    requires r.current in r.blocks
    ensures ReadLine(r.(line := "%" + l)) ==
      r.(line := "", blocks := r.blocks[r.current := r.blocks[r.current] + "%" + l + "\n"])
  {
    assert r.blocks[r.current] + ("%" + l) + "\n" == r.blocks[r.current] + "%" + l + "\n";
  }

  /** Reading a block's text adds it to the block being defined. */
  lemma {:induction false} FeedText(r: Reader, b: Block)
    requires r.line == "" && r.current in r.blocks && Lines(b)
    ensures Feed(r, Text(b)) == r.(blocks := r.blocks[r.current := r.blocks[r.current] + Text(b)])
  {
    hide *;
    if b == [] {
      FeedNothing(r);
    } else {
      var n := |b| - 1;
      TextStep(b);
      LinesOf(b);
      var l := b[n];
      FeedText(r, b[..n]);
      var p := Feed(r, Text(b[..n]));
      FeedConcat(r, Text(b[..n]), "%" + l + "\n");
      assert "%" + l + "\n" == ("%" + l) + "\n";
      FeedLine(p, "%" + l);
      ReadPercent(p, l);
      LongerText(r.blocks, r.current, Text(b[..n]), l);
    }
  }

  lemma FeedNothing(r: Reader)
    requires r.current in r.blocks
    ensures Feed(r, Text([])) == r.(blocks := r.blocks[r.current := r.blocks[r.current] + Text([])])
  {
    assert r.blocks[r.current] + "" == r.blocks[r.current];
    assert r.blocks[r.current := r.blocks[r.current]] == r.blocks;
  }

  lemma LinesOf(b: Block)
    requires Lines(b) && b != []
    ensures Lines(b[..|b| - 1]) && '\n' !in "%" + b[|b| - 1]
  {
  }

  lemma LongerText(m: map<string, string>, c: string, t: string, l: string)
    requires c in m
    ensures var m' := m[c := m[c] + t]; m'[c := m'[c] + "%" + l + "\n"] == m[c := m[c] + (t + ("%" + l + "\n"))]
  {
    assert m[c] + t + "%" + l + "\n" == m[c] + (t + ("%" + l + "\n"));
  }

  /** Reading a definition: its number, then its text. */
  lemma FeedDefinition(r: Reader, id: string, b: Block)
    requires r.line == "" && Lines(b) && '\n' !in id
    ensures Feed(r, "@" + id + "\n" + Text(b)) == r.(current := id, blocks := r.blocks[id := Text(b)])
  {
    hide Feed, Text, ReadLine;
    FeedConcat(r, "@" + id + "\n", Text(b));
    FeedLine(r, "@" + id);
    ReadAt(r, id);
    var p := r.(current := id, blocks := r.blocks[id := ""]);
    FeedText(p, b);
    assert "" + Text(b) == Text(b);
    assert p.blocks[id := Text(b)] == r.blocks[id := Text(b)];
  }

  lemma ReadAt(r: Reader, id: string)
    requires r.line == ""
    ensures ReadLine(r.(line := "@" + id)) == r.(current := id, blocks := r.blocks[id := ""])
  {
    assert ("@" + id)[1..] == id;
  }

  lemma DecPlain(n: nat)
    ensures '\n' !in Dec(n) && Dec(n)[0] != '@' && Dec(n)[0] != '%' && Dec(n)[0] != '#'
  {
    forall k | 0 <= k < |Dec(n)| ensures IsDigit(Dec(n)[k]) { DecDigits(n, k); }
  }

  /** Reading an execution: its number stands for its text. */
  lemma FeedNumber(r: Reader, n: nat)
    requires r.line == "" && Dec(n) in r.blocks
    ensures Feed(r, Dec(n) + "\n") == r.(out := r.out + r.blocks[Dec(n)])
  {
    DecPlain(n);
    FeedLine(r, Dec(n));
  }

  // ---------- round trip ----------

  /** The reader, having read what the compressing tool wrote, has written what the plain one wrote. */
  ghost predicate Agree(t: Tool, u: Tool, r: Reader) {
    && t.tracing == u.tracing && r.line == "" && r.out == u.file
    && t.count == |t.calls| % UINT32 && |t.calls| == |u.calls|
    && forall k :: 0 <= k < |t.calls| ==> Numbered(t, u, r, k)
  }

  ghost predicate Numbered(t: Tool, u: Tool, r: Reader, k: nat)
    requires k < |t.calls| && k < |u.calls|
  {
    var id := Dec((k + 1) % UINT32);
    t.calls[k] == id + "\n" && id in r.blocks && r.blocks[id] == u.calls[k]
  }

  /** What the compressing tool adds to the file in a step. */
  function Written(before: Tool, after: Tool): string
    requires |before.file| <= |after.file|
  {
    after.file[|before.file|..]
  }

  /** Fewer than 2^32 blocks apart, numbers differ. */
  lemma NumbersDiffer(k: nat, m: nat)
    requires k < m < k + UINT32
    ensures (k + 1) % UINT32 != (m % UINT32 + 1) % UINT32
  {
  }

  lemma BlockAgrees(t: Tool, u: Tool, r: Reader, b: Block)
    requires Agree(t, u, r) && Lines(b) && |t.calls| + 1 <= UINT32
    ensures var t', u' := InstrumentBlock(true, t, b), InstrumentBlock(false, u, b);
      && |t'.file| >= |t.file| && t'.file == t.file + Written(t, t')
      && Agree(t', u', Feed(r, Written(t, t')))
  {
    hide Feed, Text, Dec;
    var t', u' := InstrumentBlock(true, t, b), InstrumentBlock(false, u, b);
    var n := (t.count + 1) % UINT32;
    var id := Dec(n);
    assert t'.file == t.file + ("@" + id + "\n" + Text(b));
    assert Written(t, t') == "@" + id + "\n" + Text(b);
    DecPlain(n);
    FeedDefinition(r, id, b);
    var r' := Feed(r, Written(t, t'));
    forall k | 0 <= k < |t'.calls| ensures Numbered(t', u', r', k) {
      if k < |t.calls| {
        assert Numbered(t, u, r, k);
        if Dec((k + 1) % UINT32) == id {
          DecInjective((k + 1) % UINT32, n);
          NumbersDiffer(k, |t.calls|);
        }
      }
    }
  }

  lemma {:induction false} TraceAgrees(t: Tool, u: Tool, r: Reader, bs: seq<Block>)
    requires Agree(t, u, r) && (forall b :: b in bs ==> Lines(b)) && |t.calls| + |bs| <= UINT32
    ensures var t', u' := InstrumentAll(true, t, bs), InstrumentAll(false, u, bs);
      && |t'.file| >= |t.file| && t'.file == t.file + Written(t, t')
      && Agree(t', u', Feed(r, Written(t, t')))
  {
    if bs == [] {
      assert t.file + [] == t.file;
    } else {
      var n := |bs| - 1;
      hide Agree, InstrumentBlock, Lines;
      TraceAgrees(t, u, r, bs[..n]);
      var t1, u1 := InstrumentAll(true, t, bs[..n]), InstrumentAll(false, u, bs[..n]);
      BlockAgrees(t1, u1, Feed(r, Written(t, t1)), bs[n]);
      WrittenTwice(r, t, t1, InstrumentAll(true, t, bs));
    }
  }

  lemma WrittenTwice(r: Reader, a: Tool, b: Tool, c: Tool)
    requires |a.file| <= |b.file| <= |c.file| && b.file == a.file + Written(a, b) && c.file == b.file + Written(b, c)
    ensures c.file == a.file + Written(a, c)
    ensures Feed(r, Written(a, c)) == Feed(Feed(r, Written(a, b)), Written(b, c))
  {
    hide Feed;
    assert Written(a, c) == Written(a, b) + Written(b, c);
    FeedConcat(r, Written(a, b), Written(b, c));
  }

  /** Disassembled instructions have no line breaks. */
  ghost predicate LinesOnly(es: seq<Event>) {
    forall e, b :: e in es && e.Instrument? && b in e.trace ==> Lines(b)
  }

  lemma NextAgrees(t: Tool, u: Tool, r: Reader, e: Event)
    requires Agree(t, u, r) && (e.Execute? ==> e.block < |t.calls|)
    requires e.Instrument? ==> forall b :: b in e.trace ==> Lines(b)
    requires |Next(true, t, e).calls| <= UINT32
    ensures var t', u' := Next(true, t, e), Next(false, u, e);
      && |t'.file| >= |t.file| && t'.file == t.file + Written(t, t')
      && Agree(t', u', Feed(r, Written(t, t')))
  {
    if e.Instrument? && t.tracing {
      TraceAgrees(t, u, r, e.trace);
    } else {
      if e.Execute? {
        var k := e.block;
        assert Numbered(t, u, r, k);
        assert Written(t, Next(true, t, e)) == Dec((k + 1) % UINT32) + "\n";
        FeedNumber(r, (k + 1) % UINT32);
      } else {
        assert t.file + [] == t.file;
      }
      hide Feed, Dec;
      var t', u', r' := Next(true, t, e), Next(false, u, e), Feed(r, Written(t, Next(true, t, e)));
      forall k | 0 <= k < |t'.calls| ensures Numbered(t', u', r', k) { assert Numbered(t, u, r, k); }
    }
  }

  const READER := Reader("", map[], "", "")

  /** A comment line passes through. */
  lemma FeedComment(r: Reader, l: string)
    requires r.line == "" && '\n' !in l && l != "" && l[0] == '#'
    ensures Feed(r, l + "\n") == r.(out := r.out + l + "\n")
  {
    FeedLine(r, l);
  }

  lemma TitleIsComment()
    ensures '\n' !in TITLE && TITLE != "" && TITLE[0] == '#'
  {
    assert "# Compressed"[0] == '#';
    assert '\n' !in "# Compressed" && '\n' !in " Instruction" && '\n' !in " Trace";
    assert '\n' !in " Generated" && '\n' !in " By Pin";
  }

  lemma FeedHeader()
    ensures Feed(READER, HEADER) == READER.(out := HEADER)
  {
    TitleIsComment();
    FeedThreeComments("#", TITLE, "#");
  }

  lemma FeedThreeComments(a: string, b: string, c: string)
    requires '\n' !in a && '\n' !in b && '\n' !in c
    requires a != "" && a[0] == '#' && b != "" && b[0] == '#' && c != "" && c[0] == '#'
    ensures var text := (a + "\n") + (b + "\n") + (c + "\n"); Feed(READER, text) == READER.(out := text)
  {
    hide Feed;
    FeedConcat(READER, (a + "\n") + (b + "\n"), c + "\n");
    FeedConcat(READER, a + "\n", b + "\n");
    FeedComment(READER, a);
    var r1 := READER.(out := "" + a + "\n");
    FeedComment(r1, b);
    var r2 := r1.(out := r1.out + b + "\n");
    FeedComment(r2, c);
    assert r2.out + c + "\n" == (a + "\n") + (b + "\n") + (c + "\n");
  }

  lemma {:induction false} RunAgrees(tracing: bool, es: seq<Event>)
    requires Possible(true, tracing, es) && LinesOnly(es) && |Run(true, tracing, es).calls| <= UINT32
    ensures Possible(false, tracing, es)
    ensures Agree(Run(true, tracing, es), Run(false, tracing, es), Feed(READER, Run(true, tracing, es).file))
  {
    if es == [] {
      FeedHeader();
    } else {
      var n := |es| - 1;
      hide Feed, Agree, Next;
      assert forall e :: e in es[..n] ==> e in es;
      CallsGrow(Run(true, tracing, es[..n]), es[n]);
      RunAgrees(tracing, es[..n]);
      var t, u := Run(true, tracing, es[..n]), Run(false, tracing, es[..n]);
      SameCalls(t, u, Feed(READER, t.file));
      assert es[n] in es;
      NextAgrees(t, u, Feed(READER, t.file), es[n]);
      FeedConcat(READER, t.file, Written(t, Next(true, t, es[n])));
    }
  }

  lemma SameCalls(t: Tool, u: Tool, r: Reader)
    requires Agree(t, u, r)
    ensures |t.calls| == |u.calls|
  {
  }

  lemma CallsGrow(t: Tool, e: Event)
    requires e.Execute? ==> e.block < |t.calls|
    ensures |t.calls| <= |Next(true, t, e).calls|
  {
  }

  /** Round trip: expanding the compressed stream of any run gives exactly the stream that the
      uncompressed mode writes, as long as at most 2^32 blocks are instrumented. */
  lemma ExpandRestores(tracing: bool, es: seq<Event>)
    requires Possible(true, tracing, es) && LinesOnly(es) && |Run(true, tracing, es).calls| <= 0x1_0000_0000
    ensures Possible(false, tracing, es)
    ensures Expand(Run(true, tracing, es).file + FOOTER) == Run(false, tracing, es).file + FOOTER
  {
    RunAgrees(tracing, es);
    var f := Run(true, tracing, es).file;
    FeedConcat(READER, f, FOOTER);
    FeedComment(Feed(READER, f), "# eof");
  }

  lemma BlockCount(t: Tool, b: Block)
    requires t.count == |t.calls| % UINT32
    ensures var t' := InstrumentBlock(true, t, b);
      && t'.count == |t'.calls| % UINT32
      && t'.calls == t.calls + [Dec((|t.calls| + 1) % UINT32) + "\n"]
  {
    hide Dec, Text;
    assert (|t.calls| + 1) % UINT32 == (t.count + 1) % UINT32;
  }

  /** Block number k is called k + 1, modulo 2^32. */
  lemma {:induction false} CallNumbers(t: Tool, bs: seq<Block>)
    requires t.count == |t.calls| % UINT32
    ensures var t' := InstrumentAll(true, t, bs);
      && t'.count == |t'.calls| % UINT32 && t.calls <= t'.calls
      && forall k :: |t.calls| <= k < |t'.calls| ==> t'.calls[k] == Dec((k + 1) % 0x1_0000_0000) + "\n"
  {
    hide Dec, Text, InstrumentBlock;
    if bs != [] {
      var n := |bs| - 1;
      CallNumbers(t, bs[..n]);
      BlockCount(InstrumentAll(true, t, bs[..n]), bs[n]);
    }
  }

  lemma {:induction false} PlainCalls(u: Tool, bs: seq<Block>, k: nat)
    requires k < |bs|
    ensures InstrumentAll(false, u, bs).calls[|u.calls| + k] == Text(bs[k])
    ensures InstrumentAll(false, u, bs).file == u.file
  {
    hide Text;
    var n := |bs| - 1;
    if k < n {
      PlainCalls(u, bs[..n], k);
    } else if n > 0 {
      PlainCalls(u, bs[..n], 0);
    }
  }

  /** The calls inserted before stay. */
  lemma {:induction false} CallsKept(compress: bool, t: Tool, bs: seq<Block>)
    ensures t.calls <= InstrumentAll(compress, t, bs).calls
  {
    hide Text, Dec;
    if bs != [] { CallsKept(compress, t, bs[..|bs| - 1]); }
  }

  lemma {:induction false} TracingKept(compress: bool, t: Tool, bs: seq<Block>)
    ensures InstrumentAll(compress, t, bs).tracing == t.tracing
    ensures !compress ==> InstrumentAll(compress, t, bs).file == t.file
  {
    if bs != [] { TracingKept(compress, t, bs[..|bs| - 1]); }
  }

  /** What instrumentation adds: one call for each block and, in plain mode, its text as the call. */
  lemma TextsAdded(compress: bool, t: Tool, bs: seq<Block>)
    ensures var t' := InstrumentAll(compress, t, bs);
      && t'.tracing == t.tracing && |t'.calls| == |t.calls| + |bs| && t.calls <= t'.calls
      && (!compress ==> t'.file == t.file && forall k :: 0 <= k < |bs| ==> t'.calls[|t.calls| + k] == Text(bs[k]))
  {
    hide Text, InstrumentAll;
    CallsKept(compress, t, bs);
    TracingKept(compress, t, bs);
    if !compress {
      forall k | 0 <= k < |bs| ensures InstrumentAll(false, t, bs).calls[|t.calls| + k] == Text(bs[k]) {
        PlainCalls(t, bs, k);
      }
    }
  }

  lemma Wraps(k: nat)
    ensures (k + UINT32 + 1) % UINT32 == (k + 1) % UINT32
  {
  }

  /** Beyond 2^32 blocks the counter repeats, and no reader at all can restore the plain stream:
      executing block k or block k + 2^32 gives the same compressed file, but plain files that
      differ whenever the blocks do. */
  lemma NoReaderRestores(bs: seq<Block>, k: nat)
    requires k + 0x1_0000_0000 < |bs| && Text(bs[k]) != Text(bs[k + 0x1_0000_0000])
    ensures var (t, u) := (Next(true, Start(true), Instrument(bs)), Next(false, Start(true), Instrument(bs)));
      && Next(true, t, Execute(k)).file == Next(true, t, Execute(k + 0x1_0000_0000)).file
      && Next(false, u, Execute(k)).file != Next(false, u, Execute(k + 0x1_0000_0000)).file
  {
    hide Dec, InstrumentAll, Text;
    var t, u := Next(true, Start(true), Instrument(bs)), Next(false, Start(true), Instrument(bs));
    CallNumbers(Start(true), bs);
    Wraps(k);
    PlainCalls(Start(true), bs, k);
    PlainCalls(Start(true), bs, k + UINT32);
    DifferentTails(u.file, Text(bs[k]), Text(bs[k + UINT32]));
  }

  lemma DifferentTails(f: string, a: string, b: string)
    requires a != b
    ensures f + a != f + b
  {
    assert (f + a)[|f|..] == a && (f + b)[|f|..] == b;
  }

  // ---------- up to how many blocks ----------

  /** Expanding the compressed stream of any run of at most `n` blocks gives the plain stream. */
  ghost predicate RoundTrip(n: nat) {
    forall tracing, es ::
      Possible(true, tracing, es) && LinesOnly(es) && |Run(true, tracing, es).calls| <= n ==>
      && Possible(false, tracing, es)
      && Expand(Run(true, tracing, es).file + FOOTER) == Run(false, tracing, es).file + FOOTER
  }

  /** A trace of m + 1 blocks of one instruction, the same in all but the last. */
  function LastDiffers(m: nat): (bs: seq<Block>)
    ensures |bs| == m + 1 && bs[m] == ["nop"] && forall k :: 0 <= k < m ==> bs[k] == ["ret"]
  {
    seq(m, _ => ["ret"]) + [["nop"]]
  }

  /** The run that instruments the blocks and executes one of them. */
  lemma RunOne(compress: bool, bs: seq<Block>, k: nat)
    requires k < |bs|
    ensures var es, t := [Instrument(bs), Execute(k)], Next(compress, Start(true), Instrument(bs));
      && |t.calls| == |bs|
      && Possible(compress, true, es) && Run(compress, true, es) == Next(compress, t, Execute(k))
  {
    hide InstrumentBlock, Text, Dec;
    var es := [Instrument(bs), Execute(k)];
    assert es[..1] == [Instrument(bs)] && [Instrument(bs)][..0] == [];
    assert Possible(compress, true, []) && Run(compress, true, []) == Start(true);
    assert Possible(compress, true, [Instrument(bs)]);
    assert Run(compress, true, [Instrument(bs)]) == Next(compress, Start(true), Instrument(bs));
  }

  lemma TextsDiffer()
    ensures Text(["ret"]) != Text(["nop"])
  {
    assert Text(["ret"]) == Text(["ret"][..0]) + "%" + "ret" + "\n";
    assert Text(["nop"]) == Text(["nop"][..0]) + "%" + "nop" + "\n";
    assert Text(["ret"])[1] == 'r' && Text(["nop"])[1] == 'n';
  }

  /** With more than 2^32 blocks, one of two runs is not restored: they execute the first and the last
      of 2^32 + 1 blocks, which share a number. */
  lemma RoundTripFails(n: nat)
    requires n > UINT32
    ensures !RoundTrip(n)
  {
    hide Expand, Text, InstrumentAll;
    var bs := LastDiffers(UINT32);
    TextsDiffer();
    NoReaderRestores(bs, 0);
    RunOne(true, bs, 0);
    RunOne(true, bs, UINT32);
    RunOne(false, bs, 0);
    RunOne(false, bs, UINT32);
    var first, last := [Instrument(bs), Execute(0)], [Instrument(bs), Execute(UINT32)];
    assert LinesOnly(first) && LinesOnly(last);
    SameTails(Run(false, true, first).file, Run(false, true, last).file);
  }

  lemma SameTails(f: string, g: string)
    ensures f + FOOTER == g + FOOTER ==> f == g
  {
    if f + FOOTER == g + FOOTER {
      assert f == (f + FOOTER)[..|f|] && g == (g + FOOTER)[..|g|];
    }
  }

  /** The round trip holds for all runs of at most n blocks exactly when n is at most 2^32. */
  lemma RoundTripExact(n: nat)
    ensures RoundTrip(n) <==> n <= 0x1_0000_0000
  {
    hide Expand, Possible, Run, LinesOnly;
    if n <= UINT32 {
      forall tracing, es | Possible(true, tracing, es) && LinesOnly(es) && |Run(true, tracing, es).calls| <= n
        ensures Possible(false, tracing, es)
        ensures Expand(Run(true, tracing, es).file + FOOTER) == Run(false, tracing, es).file + FOOTER
      {
        ExpandRestores(tracing, es);
      }
    } else {
      RoundTripFails(n);
    }
  }

  // ---------- the plain stream ----------

  /** The blocks seen while tracing was on, in order, and whether it is on. */
  function Traced(tracing: bool, es: seq<Event>): (bool, seq<Block>) {
    if es == [] then (tracing, [])
    else
      var (on, bs) := Traced(tracing, es[..|es| - 1]);
      match es[|es| - 1]
      case Tracing(now) => (now, bs)
      case Instrument(trace) => (on, if on then bs + trace else bs)
      case Execute(_) => (on, bs)
  }

  /** The texts of the blocks executed, in order. */
  function Executions(bs: seq<Block>, es: seq<Event>): string {
    if es == [] then ""
    else
      var e := es[|es| - 1];
      Executions(bs, es[..|es| - 1]) + if e.Execute? && e.block < |bs| then Text(bs[e.block]) else ""
  }

  lemma {:induction false} MoreBlocks(bs: seq<Block>, more: seq<Block>, tracing: bool, es: seq<Event>)
    requires Possible(false, tracing, es) && |Run(false, tracing, es).calls| <= |bs|
    ensures Executions(bs + more, es) == Executions(bs, es)
  {
    if es != [] {
      hide Text, Dec;
      var n := |es| - 1;
      CallsKeptByEvent(Run(false, tracing, es[..n]), es[n]);
      MoreBlocks(bs, more, tracing, es[..n]);
    }
  }

  lemma CallsKeptByEvent(t: Tool, e: Event)
    requires e.Execute? ==> e.block < |t.calls|
    ensures |t.calls| <= |Next(false, t, e).calls|
  {
  }

  ghost predicate Plain(t: Tool, on: bool, bs: seq<Block>, es: seq<Event>) {
    && t.tracing == on && |t.calls| == |bs| && (forall k :: 0 <= k < |bs| ==> t.calls[k] == Text(bs[k]))
    && t.file == HEADER + Executions(bs, es)
  }

  /** The plain stream: the header, and the text of each execution of a block, whichever blocks were
      seen while tracing was on. */
  lemma {:induction false} PlainStream(tracing: bool, es: seq<Event>)
    requires Possible(false, tracing, es)
    ensures var (on, bs) := Traced(tracing, es); Plain(Run(false, tracing, es), on, bs, es)
  {
    hide Text, Dec;
    if es == [] {
      assert HEADER + "" == HEADER;
    } else {
      var n := |es| - 1;
      PlainStream(tracing, es[..n]);
      var t := Run(false, tracing, es[..n]);
      var (on, bs) := Traced(tracing, es[..n]);
      match es[n]
      case Tracing(_) => PlainQuiet(t, on, bs, es);
      case Execute(_) => PlainExecute(t, on, bs, es);
      case Instrument(more) =>
        if on {
          MoreBlocks(bs, more, tracing, es[..n]);
          PlainMore(t, bs, more, es);
        } else {
          PlainQuiet(t, on, bs, es);
        }
    }
  }

  lemma PlainQuiet(t: Tool, on: bool, bs: seq<Block>, es: seq<Event>)
    requires es != [] && !es[|es| - 1].Execute? && Plain(t, on, bs, es[..|es| - 1])
    ensures forall now :: Plain(t.(tracing := now), now, bs, es)
  {
    hide Text;
    assert Executions(bs, es[..|es| - 1]) + "" == Executions(bs, es[..|es| - 1]);
  }

  lemma PlainExecute(t: Tool, on: bool, bs: seq<Block>, es: seq<Event>)
    requires es != [] && es[|es| - 1].Execute? && es[|es| - 1].block < |t.calls| && Plain(t, on, bs, es[..|es| - 1])
    ensures Plain(Next(false, t, es[|es| - 1]), on, bs, es)
  {
    hide Text;
    var k := es[|es| - 1].block;
    assert t.file + t.calls[k] == HEADER + (Executions(bs, es[..|es| - 1]) + Text(bs[k]));
  }

  lemma PlainMore(t: Tool, bs: seq<Block>, more: seq<Block>, es: seq<Event>)
    requires es != [] && es[|es| - 1].Instrument? && Plain(t, true, bs, es[..|es| - 1])
    requires Executions(bs + more, es[..|es| - 1]) == Executions(bs, es[..|es| - 1])
    ensures Plain(InstrumentAll(false, t, more), true, bs + more, es)
  {
    hide Text, InstrumentAll;
    TextsAdded(false, t, more);
    assert Executions(bs + more, es[..|es| - 1]) + "" == Executions(bs, es[..|es| - 1]);
  }

}

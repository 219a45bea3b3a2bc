/** Server-Sent Events as the server prints them and the two incremental readers parse them.
    `parse` stands for JSON.parse of an event's data: None when it throws. */
module Sse {
  import opened Options
  import opened Text
  import Sequences

  // ----- the printer -----

  /** What goes over the wire: an event with its canonical JSON text, or a heartbeat comment. */
  datatype Item = Message(sequence: nat, kind: string, data: string) | Heartbeat

  function Print(item: Item): string {
    match item
    case Message(n, kind, data) => "id: " + Decimal(n) + "\nevent: " + kind + "\ndata: " + data + "\n\n"
    case Heartbeat => ": heartbeat\n\n"
  }

  function PrintAll(items: seq<Item>): string {
    if items == [] then "" else Print(items[0]) + PrintAll(items[1..])
  }

  // ----- blocks -----

  /** The first blank line: the index of the first "\n\n". */
  function Boundary(s: string): (b: Option<nat>)
    ensures b.Some? ==> b.value + 2 <= |s| && s[b.value] == '\n' && s[b.value + 1] == '\n'
    ensures b.Some? ==> forall i | 0 <= i < b.value :: s[i] != '\n' || s[i + 1] != '\n'
    ensures b.None? ==> forall i | 0 <= i < |s| - 1 :: s[i] != '\n' || s[i + 1] != '\n'
  {
    if |s| < 2 then None
    else if s[0] == '\n' && s[1] == '\n' then Some(0)
    else
      match Boundary(s[1..])
      case None =>
        assert forall i | 0 < i < |s| - 1 :: s[i] == s[1..][i - 1] && s[i + 1] == s[1..][i];
        None
      case Some(b) =>
        assert forall i | 0 < i < b + 1 :: s[i] == s[1..][i - 1] && s[i + 1] == s[1..][i];
        Some(b + 1)
  }

  /** All complete blocks of a text, and what is left after the last blank line. */
  function Blocks(s: string): (seq<string>, string)
    decreases |s|
  {
    match Boundary(s)
    case None => ([], s)
    case Some(b) => var (more, rest) := Blocks(s[b + 2..]); ([s[..b]] + more, rest)
  }

  /** The first boundary is where it is whatever follows. */
  lemma BoundaryIsFirst(s: string, b: nat)
    requires b + 2 <= |s| && s[b] == '\n' && s[b + 1] == '\n'
    requires forall i | 0 <= i < b :: s[i] != '\n' || s[i + 1] != '\n'
    ensures Boundary(s) == Some(b)
  {}

  lemma BlocksStep(s: string, b: nat)
    requires Boundary(s) == Some(b)
    ensures Blocks(s) == ([s[..b]] + Blocks(s[b + 2..]).0, Blocks(s[b + 2..]).1)
  {}

  /** Reading more text continues from what was left over: the reader may cut its input anywhere. */
  lemma {:induction false} BlocksContinue(s: string, t: string)
    ensures Blocks(s + t) == (Blocks(s).0 + Blocks(Blocks(s).1 + t).0, Blocks(Blocks(s).1 + t).1)
    decreases |s|
  {
    match Boundary(s)
    case None =>
      assert Blocks(s) == ([], s);
      assert [] + Blocks(s + t).0 == Blocks(s + t).0;
    case Some(b) =>
      FirstStays(s, t, b);
      BlocksContinue(s[b + 2..], t);
      StepAppend(s, s + t, b, Blocks(s[b + 2..]), Blocks(s[b + 2..] + t), Blocks(Blocks(s[b + 2..]).1 + t));
  }

  lemma StepAppend(s: string, u: string, b: nat,
    mine: (seq<string>, string), all: (seq<string>, string), more: (seq<string>, string))
    requires Boundary(s) == Boundary(u) == Some(b) && s[..b] == u[..b]
    requires mine == Blocks(s[b + 2..]) && all == Blocks(u[b + 2..]) && all == (mine.0 + more.0, more.1)
    ensures Blocks(s).1 == mine.1 && Blocks(u) == (Blocks(s).0 + more.0, more.1)
  {
    BlocksStep(s, b);
    BlocksStep(u, b);
    Sequences.Associates([s[..b]], mine.0, more.0);
  }

  lemma FirstStays(s: string, t: string, b: nat)
    requires Boundary(s) == Some(b)
    ensures Boundary(s + t) == Some(b) && (s + t)[..b] == s[..b] && (s + t)[b + 2..] == s[b + 2..] + t
  {
    BoundaryIsFirst(s + t, b);
  }

  // ----- one block -----

  /** The characters JavaScript's trimStart removes. */
  predicate IsSpace(c: char) {
    || '\t' <= c <= '\r' || c == ' ' || c == '\U{00A0}' || c == '\U{1680}' || '\U{2000}' <= c <= '\U{200A}'
    || c == '\U{2028}' || c == '\U{2029}' || c == '\U{202F}' || c == '\U{205F}' || c == '\U{3000}' || c == '\U{FEFF}'
  }

  function TrimStart(s: string): string {
    if s != "" && IsSpace(s[0]) then TrimStart(s[1..]) else s
  }

  /** The white space of the script: tab, line feed, vertical tab, form feed, carriage return, the space separators,
      the line and paragraph separators, and the byte order mark. */
  lemma SpacesAre(c: char)
    ensures IsSpace(c) <==>
            c as int in {0x09, 0x0A, 0x0B, 0x0C, 0x0D, 0x20, 0xA0, 0x1680, 0x2000, 0x2001, 0x2002, 0x2003, 0x2004, 0x2005, 0x2006,
                         0x2007, 0x2008, 0x2009, 0x200A, 0x2028, 0x2029, 0x202F, 0x205F, 0x3000, 0xFEFF}
  {}

  /** What trimming removes is white space, and what it leaves does not begin with any. */
  lemma {:induction false} TrimSays(s: string) returns (n: nat)
    ensures n <= |s| && TrimStart(s) == s[n..]
    ensures (forall i | 0 <= i < n :: IsSpace(s[i])) && (n < |s| ==> !IsSpace(s[n]))
  {
    n := 0;
    if s != "" && IsSpace(s[0]) {
      var m := TrimSays(s[1..]);
      n := m + 1;
    }
  }

  function Lines(s: string): (lines: seq<string>)
    ensures lines != []
  {
    if s == "" then [""]
    else if s[0] == '\n' then [""] + Lines(s[1..])
    else var rest := Lines(s[1..]); [[s[0]] + rest[0]] + rest[1..]
  }

  function JoinLines(lines: seq<string>): string {
    if lines == [] then "" else if |lines| == 1 then lines[0] else lines[0] + "\n" + JoinLines(lines[1..])
  }

  /** The studio splits at /\r?\n/: a carriage return right before a line's end belongs to the end. */
  function DropReturns(lines: seq<string>): seq<string> {
    if |lines| <= 1 then lines
    else
      var l := lines[0];
      [if l != "" && l[|l| - 1] == '\r' then l[..|l| - 1] else l] + DropReturns(lines[1..])
  }

  function DataLines(lines: seq<string>): seq<string> {
    if lines == [] then []
    else if "data:" <= lines[0] then [TrimStart(lines[0][5..])] + DataLines(lines[1..])
    else DataLines(lines[1..])
  }

  datatype Parsed<E> = Skipped | Bad | Got(event: E)

  /** parseEventBlock (`lenient`: the studio's line rule) and consumeBlock. */
  function ParseBlock<E>(block: string, lenient: bool, parse: string -> Option<E>): Parsed<E> {
    var lines := Lines(block);
    var data := JoinLines(DataLines(if lenient then DropReturns(lines) else lines));
    if data == "" then Skipped
    else
      match parse(data)
      case None => Bad
      case Some(e) => Got(e)
  }

  /** What a reader has handed on, and whether it then threw. */
  datatype Stream<E> = Stream(events: seq<E>, failed: bool)

  function Next<E>(s: Stream<E>, p: Parsed<E>): Stream<E> {
    if s.failed then s
    else
      match p
      case Skipped => s
      case Bad => s.(failed := true)
      case Got(e) => s.(events := s.events + [e])
  }

  function Feed<E>(s: Stream<E>, blocks: seq<string>, lenient: bool, parse: string -> Option<E>): Stream<E>
    decreases |blocks|
  {
    if blocks == [] then s
    else Feed(Next(s, ParseBlock(blocks[0], lenient, parse)), blocks[1..], lenient, parse)
  }

  function Start<E>(): Stream<E> { Stream([], false) }

  /** What a reader makes of a whole text: the complete blocks, and the rest too when the stream ended cleanly. */
  function ReadAll<E>(text: string, ended: bool, lenient: bool, parse: string -> Option<E>): Stream<E> {
    var (blocks, rest) := Blocks(text);
    var s := Feed(Start(), blocks, lenient, parse);
    if ended then Next(s, ParseBlock(rest, lenient, parse)) else s
  }

  /** A line is data exactly when it begins with "data:"; what follows, without leading white space, is handed on in order. */
  lemma {:induction false} DataLinesSay(lines: seq<string>, more: seq<string>)
    ensures DataLines(lines + more) == DataLines(lines) + DataLines(more)
    ensures |lines| == 1 ==>
              DataLines(lines) == if |lines[0]| >= 5 && lines[0][..5] == "data:" then [TrimStart(lines[0][5..])] else []
    decreases |lines|
  {
    if lines == [] {
      assert lines + more == more;
    } else {
      assert (lines + more)[1..] == lines[1..] + more;
      DataLinesSay(lines[1..], more);
      assert lines == [lines[0]] + lines[1..];
    }
  }

  /** A reader throws exactly when a block it reads is bad, and has handed on the events of the blocks before the first such. */
  lemma {:induction false} ReadersThrow<E>(s: Stream<E>, blocks: seq<string>, lenient: bool, parse: string -> Option<E>)
    requires !s.failed
    ensures Feed(s, blocks, lenient, parse).failed <==>
            exists k :: 0 <= k < |blocks| && ParseBlock(blocks[k], lenient, parse).Bad?
    decreases |blocks|
  {
    if blocks != [] {
      var first := ParseBlock(blocks[0], lenient, parse);
      if first.Bad? {
        FailureStays(Next(s, first), blocks[1..], lenient, parse);
      } else {
        ReadersThrow(Next(s, first), blocks[1..], lenient, parse);
        assert forall k | 0 < k < |blocks| :: blocks[k] == blocks[1..][k - 1];
      }
    }
  }

  lemma NextSays<E>(s: Stream<E>, p: Parsed<E>)
    ensures s.failed ==> Next(s, p) == s
    ensures !s.failed && p.Skipped? ==> Next(s, p) == s
    ensures !s.failed && p.Bad? ==> Next(s, p) == Stream(s.events, true)
    ensures !s.failed && p.Got? ==> Next(s, p) == Stream(s.events + [p.event], false)
  {}

  /** The rest after the last blank line is read as a block when the stream ends, and dropped when it breaks off. */
  lemma RestIsRead<E>(text: string, lenient: bool, parse: string -> Option<E>)
    ensures ReadAll(text, false, lenient, parse) == Feed(Start(), Blocks(text).0, lenient, parse)
    ensures ReadAll(text, true, lenient, parse) == Feed(Start(), Blocks(text).0 + [Blocks(text).1], lenient, parse)
  {
    var (blocks, rest) := Blocks(text);
    FeedConcat(Start(), blocks, [rest], lenient, parse);
    var s := Feed(Start(), blocks, lenient, parse);
    assert [rest][1..] == [];
    assert Feed(s, [rest], lenient, parse) == Next(s, ParseBlock(rest, lenient, parse));
  }

  lemma FeedFirst<E>(s: Stream<E>, block: string, later: seq<string>, lenient: bool, parse: string -> Option<E>)
    ensures Feed(s, [block] + later, lenient, parse) == Feed(Next(s, ParseBlock(block, lenient, parse)), later, lenient, parse)
  {
    Sequences.Cons(block, later);
  }

  lemma {:induction false} FeedConcat<E>(s: Stream<E>, x: seq<string>, y: seq<string>, lenient: bool, parse: string -> Option<E>)
    ensures Feed(s, x + y, lenient, parse) == Feed(Feed(s, x, lenient, parse), y, lenient, parse)
    decreases |x|
  {
    if x == [] {
      assert x + y == y;
    } else {
      assert (x + y)[1..] == x[1..] + y;
      FeedConcat(Next(s, ParseBlock(x[0], lenient, parse)), x[1..], y, lenient, parse);
    }
  }

  /** Once a reader threw, later blocks change nothing. */
  lemma {:induction false} FailureStays<E>(s: Stream<E>, blocks: seq<string>, lenient: bool, parse: string -> Option<E>)
    requires s.failed
    ensures Feed(s, blocks, lenient, parse) == s
    decreases |blocks|
  {
    if blocks != [] { FailureStays(s, blocks[1..], lenient, parse); }
  }

  // ----- chunks -----

  /** replace(/\r\n/g, "\n") */
  function Unix(s: string): string {
    if s == "" then ""
    else if StartsWithReturn(s) then "\n" + Unix(s[2..])
    else [s[0]] + Unix(s[1..])
  }

  function Concat(chunks: seq<string>): string {
    if chunks == [] then "" else Concat(chunks[..|chunks| - 1]) + chunks[|chunks| - 1]
  }

  /** The text a reader accumulates: each chunk is normalised by itself. */
  function Received(chunks: seq<string>): string {
    if chunks == [] then "" else Received(chunks[..|chunks| - 1]) + Unix(chunks[|chunks| - 1])
  }

  predicate SplitsReturn(before: string, chunk: string) {
    before != "" && chunk != "" && before[|before| - 1] == '\r' && chunk[0] == '\n'
  }

  /** No chunk boundary falls between a carriage return and its line feed. */
  ghost predicate CleanlyCut(chunks: seq<string>) {
    forall k | 0 <= k < |chunks| :: !SplitsReturn(Concat(chunks[..k]), chunks[k])
  }

  predicate StartsWithReturn(s: string) { |s| >= 2 && s[0] == '\r' && s[1] == '\n' }

  /** One step of the normalisation: what it puts out and how much it takes in. */
  function Head(s: string): string
    requires s != ""
  {
    if StartsWithReturn(s) then "\n" else [s[0]]
  }

  function Width(s: string): nat { if StartsWithReturn(s) then 2 else 1 }

  lemma UnixStep(s: string)
    requires s != ""
    ensures Width(s) <= |s| && Unix(s) == Head(s) + Unix(s[Width(s)..])
  {}

  lemma {:induction false} UnixConcat(s: string, t: string)
    requires !SplitsReturn(s, t)
    ensures Unix(s + t) == Unix(s) + Unix(t)
    decreases |s|
  {
    if s == "" {
      assert s + t == t;
    } else {
      var n := Width(s);
      assert StartsWithReturn(s + t) <==> StartsWithReturn(s);
      assert (s + t)[n..] == s[n..] + t;
      UnixStep(s);
      UnixStep(s + t);
      UnixConcat(s[n..], t);
      Sequences.Associates(Head(s), Unix(s[n..]), Unix(t));
    }
  }

  /** A carriage return cut from its line feed leaves one character too many. */
  lemma {:induction false} UnixSplit(s: string, t: string)
    requires SplitsReturn(s, t)
    ensures |Unix(s + t)| == |Unix(s)| + |Unix(t)| - 1
    decreases |s|
  {
    UnixStep(s);
    UnixStep(s + t);
    if |s| == 1 {
      assert (s + t)[2..] == t[1..];
      UnixStep(t);
      assert Unix("") == "" && s[1..] == "";
    } else {
      var n := Width(s);
      assert (s + t)[0] == s[0] && (s + t)[1] == s[1];
      assert (s + t)[n..] == s[n..] + t;
      UnixSplit(s[n..], t);
    }
  }

  lemma {:induction false} ReceivedLength(chunks: seq<string>)
    ensures CleanlyCut(chunks) ==> Received(chunks) == Unix(Concat(chunks))
    ensures !CleanlyCut(chunks) ==> |Received(chunks)| > |Unix(Concat(chunks))|
  {
    if chunks != [] {
      var init, last := chunks[..|chunks| - 1], chunks[|chunks| - 1];
      assert forall k | 0 <= k < |init| :: init[k] == chunks[k] && init[..k] == chunks[..k];
      assert CleanlyCut(chunks) <==> CleanlyCut(init) && !SplitsReturn(Concat(init), last);
      ReceivedLength(init);
      if SplitsReturn(Concat(init), last) { UnixSplit(Concat(init), last); } else { UnixConcat(Concat(init), last); }
    }
  }

  /** Chunks accumulate to the whole text normalised exactly when no boundary cuts a carriage return from its line feed,
      however many and however small they are. */
  lemma ReceivedIsWhole(chunks: seq<string>)
    ensures Received(chunks) == Unix(Concat(chunks)) <==> CleanlyCut(chunks)
  {
    ReceivedLength(chunks);
  }

  /** Without carriage returns normalising does nothing, wherever the chunks are cut. */
  lemma {:induction false} NoReturns(chunks: seq<string>)
    requires '\r' !in Concat(chunks)
    ensures CleanlyCut(chunks) && Received(chunks) == Concat(chunks)
  {
    if chunks != [] {
      var init, last := chunks[..|chunks| - 1], chunks[|chunks| - 1];
      assert forall c | c in Concat(init) :: c in Concat(chunks);
      NoReturns(init);
      assert forall c | c in last :: c in Concat(chunks);
      UnixIdentity(last);
      forall k | 0 <= k < |chunks| ensures !SplitsReturn(Concat(chunks[..k]), chunks[k]) {
        if k < |init| {
          assert init[..k] == chunks[..k] && init[k] == chunks[k];
        } else {
          assert chunks[..k] == init;
          if init != [] && Concat(init) != "" { assert Concat(init)[|Concat(init)| - 1] in Concat(init); }
        }
      }
    }
  }

  lemma {:induction false} UnixIdentity(s: string)
    requires '\r' !in s
    ensures Unix(s) == s
  {
    if s != "" {
      assert s[0] in s && forall c | c in s[1..] :: c in s;
      UnixIdentity(s[1..]);
      assert s == [s[0]] + s[1..];
    }
  }

  // ----- the two readers -----

  /** The inner loop of both readers: hand on every complete block of the buffer. */
  method Drain<E>(s: Stream<E>, text: string, lenient: bool, parse: string -> Option<E>)
    returns (out: Stream<E>, buffer: string)
    requires !s.failed
    ensures out == Feed(s, Blocks(text).0, lenient, parse)
    ensures !out.failed ==> buffer == Blocks(text).1
  {
    out, buffer := s, text;
    var boundary := Boundary(buffer);
    while boundary.Some?
      invariant boundary == Boundary(buffer) && !out.failed
      invariant Feed(out, Blocks(buffer).0, lenient, parse) == Feed(s, Blocks(text).0, lenient, parse)
      invariant Blocks(buffer).1 == Blocks(text).1
      decreases |buffer|
    {
      var block := buffer[..boundary.value];
      BlocksStep(buffer, boundary.value);
      buffer := buffer[boundary.value + 2..];
      ghost var later := Blocks(buffer).0;
      FeedFirst(out, block, later, lenient, parse);
      out := ReadBlock(out, block, lenient, parse);
      if out.failed {
        FailureStays(out, later, lenient, parse);
        return;
      }
      boundary := Boundary(buffer);
    }
  }

  /** Parse one block and hand its event on. */
  method ReadBlock<E>(s: Stream<E>, block: string, lenient: bool, parse: string -> Option<E>) returns (out: Stream<E>)
    requires !s.failed
    ensures out == Next(s, ParseBlock(block, lenient, parse))
  {
    out := s;
    var parsed := ParseBlock(block, lenient, parse);
    if parsed.Bad? {
      out := out.(failed := true);
    } else if parsed.Got? {
      out := out.(events := out.events + [parsed.event]);
    }
  }

  /** The complete blocks so far, after one more chunk. */
  lemma OneMoreChunk<E>(chunks: seq<string>, k: nat, lenient: bool, parse: string -> Option<E>)
    requires k < |chunks|
    ensures var before := Blocks(Received(chunks[..k]));
            var after := Blocks(Received(chunks[..k + 1]));
            var more := Blocks(before.1 + Unix(chunks[k]));
            && after.1 == more.1
            && Feed(Start(), after.0, lenient, parse) == Feed(Feed(Start(), before.0, lenient, parse), more.0, lenient, parse)
  {
    assert chunks[..k + 1][..k] == chunks[..k];
    var s := Received(chunks[..k]);
    BlocksContinue(s, Unix(chunks[k]));
    FeedConcat(Start(), Blocks(s).0, Blocks(Blocks(s).1 + Unix(chunks[k])).0, lenient, parse);
  }

  lemma {:induction false} LaterChunksFail<E>(chunks: seq<string>, k: nat, ended: bool, lenient: bool, parse: string -> Option<E>)
    requires k <= |chunks|
    requires Feed(Start(), Blocks(Received(chunks[..k])).0, lenient, parse).failed
    ensures ReadAll(Received(chunks), ended, lenient, parse) == Feed(Start(), Blocks(Received(chunks[..k])).0, lenient, parse)
    decreases |chunks| - k
  {
    if k == |chunks| {
      assert chunks[..k] == chunks;
    } else {
      OneMoreChunk(chunks, k, lenient, parse);
      FailureStays(Feed(Start(), Blocks(Received(chunks[..k])).0, lenient, parse),
                   Blocks(Blocks(Received(chunks[..k])).1 + Unix(chunks[k])).0, lenient, parse);
      LaterChunksFail(chunks, k + 1, ended, lenient, parse);
    }
  }

  /** connectRunEventStream: `ended` when the body ends cleanly, false when a read throws after the last chunk. */
  method ConnectRunEventStream<E>(chunks: seq<string>, ended: bool, parse: string -> Option<E>) returns (out: Stream<E>)
    ensures out == ReadAll(Received(chunks), ended, true, parse)
  {
    out := Start();
    var buffer := "";
    for k := 0 to |chunks|
      invariant buffer == Blocks(Received(chunks[..k])).1
      invariant out == Feed(Start(), Blocks(Received(chunks[..k])).0, true, parse) && !out.failed
    {
      OneMoreChunk(chunks, k, true, parse);
      buffer := buffer + Unix(chunks[k]);
      out, buffer := Drain(out, buffer, true, parse);
      if out.failed {
        LaterChunksFail(chunks, k + 1, ended, true, parse);
        return;
      }
    }
    assert chunks[..|chunks|] == chunks;
    if ended {
      out := ReadBlock(out, buffer, true, parse);
    }
  }

  // ----- the public reader -----

  function Highest<E>(events: seq<E>, sequence: E -> nat): nat {
    if events == [] then 0
    else
      var h := Highest(events[..|events| - 1], sequence);
      var n := sequence(events[|events| - 1]);
      if n > h then n else h
  }

  /** The highest sequence number: none is above it, and it is one of them, or zero. */
  lemma {:induction false} HighestSays<E>(events: seq<E>, sequence: E -> nat)
    ensures forall k | 0 <= k < |events| :: sequence(events[k]) <= Highest(events, sequence)
    ensures Highest(events, sequence) == 0 || exists k :: 0 <= k < |events| && sequence(events[k]) == Highest(events, sequence)
  {
    if events != [] {
      var init := events[..|events| - 1];
      HighestSays(init, sequence);
      assert forall k | 0 <= k < |init| :: events[k] == init[k];
    }
  }

  predicate LastIs<E>(events: seq<E>, over: E -> bool) { events != [] && over(events[|events| - 1]) }

  lemma {:induction false} BlankTextHasNoData(s: string)
    requires TrimStart(s) == ""
    ensures forall k | 0 <= k < |Lines(s)| :: Lines(s)[k] == "" || IsSpace(Lines(s)[k][0])
    ensures DataLines(Lines(s)) == []
  {
    if s != "" {
      BlankTextHasNoData(s[1..]);
      BlankLines(Lines(s));
    }
  }

  lemma {:induction false} BlankLines(lines: seq<string>)
    requires forall k | 0 <= k < |lines| :: lines[k] == "" || IsSpace(lines[k][0])
    ensures DataLines(lines) == []
  {
    if lines != [] {
      assert "data:"[0] == 'd';
      BlankLines(lines[1..]);
    }
  }

  /** The inner loop of consumeEventStream. */
  method DrainPublic<E>(
    s: Stream<E>, last: nat, was: bool, text: string, parse: string -> Option<E>, sequence: E -> nat, over: E -> bool)
    returns (out: Stream<E>, lastSequence: nat, terminal: bool, buffer: string)
    requires !s.failed && last == Highest(s.events, sequence) && was == LastIs(s.events, over)
    ensures out == Feed(s, Blocks(text).0, false, parse)
    ensures lastSequence == Highest(out.events, sequence) && terminal == LastIs(out.events, over)
    ensures !out.failed ==> buffer == Blocks(text).1
  {
    out, lastSequence, terminal, buffer := s, last, was, text;
    var boundary := Boundary(buffer);
    while boundary.Some?
      invariant boundary == Boundary(buffer) && !out.failed
      invariant Feed(out, Blocks(buffer).0, false, parse) == Feed(s, Blocks(text).0, false, parse)
      invariant Blocks(buffer).1 == Blocks(text).1
      invariant lastSequence == Highest(out.events, sequence) && terminal == LastIs(out.events, over)
      decreases |buffer|
    {
      BlocksStep(buffer, boundary.value);
      ghost var later := Blocks(buffer[boundary.value + 2..]).0;
      FeedFirst(out, buffer[..boundary.value], later, false, parse);
      out, lastSequence, terminal := ConsumeBlock(out, lastSequence, terminal, buffer[..boundary.value], parse, sequence, over);
      if out.failed {
        FailureStays(out, later, false, parse);
        return;
      }
      buffer := buffer[boundary.value + 2..];
      boundary := Boundary(buffer);
    }
  }

  /** consumeEventStream: the events passed on, the highest sequence number among them, and whether the last one ends the run.
      The rest of the buffer is read only when it is not blank. */
  method ConsumeEventStream<E>(chunks: seq<string>, ended: bool, parse: string -> Option<E>, sequence: E -> nat, over: E -> bool)
    returns (out: Stream<E>, lastSequence: nat, terminal: bool)
    ensures out == ReadAll(Received(chunks), ended, false, parse)
    ensures lastSequence == Highest(out.events, sequence) && terminal == LastIs(out.events, over)
  {
    out, lastSequence, terminal := Start(), 0, false;
    var buffer := "";
    for k := 0 to |chunks|
      invariant buffer == Blocks(Received(chunks[..k])).1
      invariant out == Feed(Start(), Blocks(Received(chunks[..k])).0, false, parse) && !out.failed
      invariant lastSequence == Highest(out.events, sequence) && terminal == LastIs(out.events, over)
    {
      OneMoreChunk(chunks, k, false, parse);
      buffer := buffer + Unix(chunks[k]);
      out, lastSequence, terminal, buffer := DrainPublic(out, lastSequence, terminal, buffer, parse, sequence, over);
      if out.failed {
        LaterChunksFail(chunks, k + 1, ended, false, parse);
        return;
      }
    }
    assert chunks[..|chunks|] == chunks;
    if ended {
      if TrimStart(buffer) != "" {
        out, lastSequence, terminal := ConsumeBlock(out, lastSequence, terminal, buffer, parse, sequence, over);
      } else {
        BlankTextHasNoData(buffer);
      }
    }
  }

  lemma OneMoreEvent<E>(events: seq<E>, e: E, sequence: E -> nat, over: E -> bool)
    ensures Highest(events + [e], sequence) ==
            if sequence(e) > Highest(events, sequence) then sequence(e) else Highest(events, sequence)
    ensures LastIs(events + [e], over) == over(e)
  {
    Sequences.Snoc(events, e);
  }

  method ConsumeBlock<E>(
    s: Stream<E>, last: nat, was: bool, block: string, parse: string -> Option<E>, sequence: E -> nat, over: E -> bool)
    returns (out: Stream<E>, lastSequence: nat, terminal: bool)
    requires !s.failed && last == Highest(s.events, sequence) && was == LastIs(s.events, over)
    ensures out == Next(s, ParseBlock(block, false, parse))
    ensures lastSequence == Highest(out.events, sequence) && terminal == LastIs(out.events, over)
  {
    out, lastSequence, terminal := s, last, was;
    var data := JoinLines(DataLines(Lines(block)));
    if data == "" {
      return;
    }
    var event := parse(data);
    if event.None? {
      out := out.(failed := true);
      return;
    }
    lastSequence := if sequence(event.value) > lastSequence then sequence(event.value) else lastSequence;
    terminal := over(event.value);
    OneMoreEvent(s.events, event.value, sequence, over);
    out := out.(events := out.events + [event.value]);
  }
}

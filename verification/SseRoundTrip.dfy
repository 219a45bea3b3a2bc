/** Reading back what was printed: whole streams, any chunking, and streams cut short anywhere. */
module SseRoundTrip {
  import opened Options
  import opened Text
  import opened Sse
  import Sequences

  // ----- lines and blocks of printed text -----

  ghost predicate PlainLine(l: string) { l != "" && '\n' !in l && '\r' !in l }

  ghost predicate PlainLines(lines: seq<string>) { forall k | 0 <= k < |lines| :: PlainLine(lines[k]) }

  lemma {:induction false} OneLine(l: string)
    requires '\n' !in l
    ensures Lines(l) == [l]
  {
    if l != "" {
      assert l[0] in l && forall c | c in l[1..] :: c in l;
      OneLine(l[1..]);
      assert l == [l[0]] + l[1..];
    }
  }

  lemma {:induction false} LineThen(l: string, more: string)
    requires '\n' !in l
    ensures Lines(l + "\n" + more) == [l] + Lines(more)
  {
    var s := l + "\n" + more;
    if l == "" {
      assert s[1..] == more;
    } else {
      assert l[0] in l && forall c | c in l[1..] :: c in l;
      LineThen(l[1..], more);
      assert s[1..] == l[1..] + "\n" + more && s[0] == l[0];
      assert l == [l[0]] + l[1..];
    }
  }

  lemma {:induction false} LinesOfJoined(lines: seq<string>)
    requires lines != [] && forall k | 0 <= k < |lines| :: '\n' !in lines[k]
    ensures Lines(JoinLines(lines)) == lines
  {
    if |lines| == 1 {
      OneLine(lines[0]);
    } else {
      LinesOfJoined(lines[1..]);
      LineThen(lines[0], JoinLines(lines[1..]));
    }
  }

  lemma {:induction false} NoReturnsToDrop(lines: seq<string>)
    requires forall k | 0 <= k < |lines| :: '\r' !in lines[k]
    ensures DropReturns(lines) == lines
  {
    if |lines| > 1 {
      NoReturnsToDrop(lines[1..]);
      assert lines[0] != "" ==> lines[0][|lines[0]| - 1] in lines[0];
    }
  }

  /** A text without a blank line that neither begins nor ends a line early. */
  ghost predicate Solid(s: string) {
    && s != "" && s[0] != '\n' && s[|s| - 1] != '\n'
    && forall i, j | 0 <= i && j == i + 1 < |s| :: s[i] != '\n' || s[j] != '\n'
  }

  lemma {:induction false} JoinedIsSolid(lines: seq<string>)
    requires lines != [] && PlainLines(lines)
    ensures Solid(JoinLines(lines))
  {
    var l := lines[0];
    assert PlainLine(l) && forall i | 0 <= i < |l| :: l[i] in l;
    if |lines| > 1 {
      JoinedIsSolid(lines[1..]);
      GluedIsSolid(l, JoinLines(lines[1..]));
    }
  }

  lemma GluedIsSolid(l: string, more: string)
    requires PlainLine(l) && Solid(more)
    ensures Solid(l + "\n" + more)
  {
    var s := l + "\n" + more;
    assert forall i | 0 <= i < |l| :: l[i] in l && s[i] == l[i];
    assert forall i | |l| < i < |s| :: s[i] == more[i - |l| - 1];
  }

  /** The block a printed item ends with its blank line. */
  function ItemLines(item: Item): seq<string> {
    match item
    case Message(n, kind, data) => ["id: " + Decimal(n), "event: " + kind, "data: " + data]
    case Heartbeat => [": heartbeat"]
  }

  function Block(item: Item): string { JoinLines(ItemLines(item)) }

  lemma PrintIsBlock(item: Item)
    ensures Print(item) == Block(item) + "\n\n"
  {
    match item
    case Message(n, kind, data) =>
      var lines := ItemLines(item);
      assert JoinLines(lines[1..][1..]) == lines[2];
      assert JoinLines(lines[1..]) == lines[1] + "\n" + lines[2];
      assert Block(item) == lines[0] + "\n" + (lines[1] + "\n" + lines[2]);
    case Heartbeat =>
  }

  /** What the server prints: single-line type and data, data that does not begin with a blank (canonical JSON does not). */
  ghost predicate Printable(item: Item) {
    item.Message? ==>
      && '\n' !in item.kind && '\r' !in item.kind
      && PlainLine(item.data) && !IsSpace(item.data[0])
  }

  lemma ItemLinesArePlain(item: Item)
    requires Printable(item)
    ensures PlainLines(ItemLines(item))
  {
    if item.Message? {
      var d := Decimal(item.sequence);
      assert forall i | 0 <= i < |d| :: IsDigit(d[i]);
      PlainAfter("id: ", d);
      PlainAfter("event: ", item.kind);
      PlainAfter("data: ", item.data);
    }
  }

  lemma PlainAfter(prefix: string, l: string)
    requires PlainLine(prefix) && '\n' !in l && '\r' !in l
    ensures PlainLine(prefix + l)
  {
    assert forall c | c in prefix + l :: c in prefix || c in l;
  }

  lemma SolidEnds(b: string, more: string)
    requires Solid(b)
    ensures Boundary(b + "\n\n" + more) == Some(|b|)
  {
    var s := b + "\n\n" + more;
    assert forall i | 0 <= i < |b| :: s[i] == b[i];
    forall i | 0 <= i < |b| ensures s[i] != '\n' || s[i + 1] != '\n' {
      var j := i + 1;
      if j < |b| { assert b[i] != '\n' || b[j] != '\n'; }
    }
    BoundaryIsFirst(s, |b|);
  }

  /** A text without blank lines, closed by one, is the first block. */
  lemma SolidThen(b: string, more: string)
    requires Solid(b)
    ensures Blocks(b + "\n\n" + more) == ([b] + Blocks(more).0, Blocks(more).1)
  {
    var s := b + "\n\n" + more;
    SolidEnds(b, more);
    assert s[..|b|] == b && s[|b| + 2..] == more;
    BlocksStep(s, |b|);
  }

  lemma FirstBlock(item: Item, more: string)
    requires Printable(item)
    ensures Blocks(Print(item) + more) == ([Block(item)] + Blocks(more).0, Blocks(more).1)
  {
    ItemLinesArePlain(item);
    JoinedIsSolid(ItemLines(item));
    PrintIsBlock(item);
    SolidThen(Block(item), more);
  }

  // ----- one item -----

  function Value<E>(item: Item, parse: string -> Option<E>): Parsed<E> {
    if item.Heartbeat? then Skipped
    else
      match parse(item.data)
      case None => Bad
      case Some(e) => Got(e)
  }

  lemma OtherLines(item: Item)
    requires item.Message?
    ensures !("data:" <= "id: " + Decimal(item.sequence)) && !("data:" <= "event: " + item.kind)
  {
    assert ("id: " + Decimal(item.sequence))[0] == 'i';
    assert ("event: " + item.kind)[0] == 'e';
  }

  /** The data lines of an item's block, followed by a blank line or not. */
  lemma ItemData(item: Item, tail: seq<string>)
    requires Printable(item) && (tail == [] || tail == [""])
    ensures DataLines(ItemLines(item) + tail) == if item.Message? then [item.data] else []
  {
    var lines := ItemLines(item) + tail;
    assert DataLines(tail) == [];
    if item.Message? {
      OtherLines(item);
      assert lines[1..][1..][1..] == tail && lines[1..][1..][0] == "data: " + item.data;
      assert ("data: " + item.data)[5..] == " " + item.data;
      assert (" " + item.data)[1..] == item.data;
      assert TrimStart(" " + item.data) == item.data;
      assert DataLines(lines[1..][1..]) == [item.data];
      assert DataLines(lines[1..]) == [item.data];
    } else {
      assert lines[1..] == tail && lines[0][0] == ':';
    }
  }

  lemma BlockParses<E>(item: Item, lenient: bool, parse: string -> Option<E>)
    requires Printable(item)
    ensures ParseBlock(Block(item), lenient, parse) == Value(item, parse)
  {
    var lines := ItemLines(item);
    ItemLinesArePlain(item);
    LinesOfJoined(lines);
    NoReturnsToDrop(lines);
    ItemData(item, []);
    assert lines + [] == lines;
  }

  // ----- whole streams -----

  ghost predicate AllPrintable(items: seq<Item>) { forall k | 0 <= k < |items| :: Printable(items[k]) }

  /** What a client should see of the printed items: every event's value in order, up to one it cannot read. */
  function Values<E>(s: Stream<E>, items: seq<Item>, parse: string -> Option<E>): Stream<E>
    decreases |items|
  {
    if items == [] then s else Values(Next(s, Value(items[0], parse)), items[1..], parse)
  }

  lemma {:induction false} PrintedReadsBack<E>(s: Stream<E>, items: seq<Item>, more: string,
    lenient: bool, parse: string -> Option<E>)
    requires AllPrintable(items)
    ensures var (blocks, rest) := Blocks(PrintAll(items) + more);
            rest == Blocks(more).1
            && Feed(s, blocks, lenient, parse) == Feed(Values(s, items, parse), Blocks(more).0, lenient, parse)
    decreases |items|
  {
    if items == [] {
      assert PrintAll(items) + more == more;
    } else {
      var text := PrintAll(items[1..]) + more;
      assert PrintAll(items) + more == Print(items[0]) + text;
      FirstBlock(items[0], text);
      BlockParses(items[0], lenient, parse);
      PrintedReadsBack(Next(s, Value(items[0], parse)), items[1..], more, lenient, parse);
      assert ([Block(items[0])] + Blocks(text).0)[1..] == Blocks(text).0;
    }
  }

  lemma {:induction false} NoReturnsPrinted(items: seq<Item>)
    requires AllPrintable(items)
    ensures '\r' !in PrintAll(items)
  {
    if items != [] {
      NoReturnsPrinted(items[1..]);
      PrintIsBlock(items[0]);
      ItemLinesArePlain(items[0]);
      NoReturnsJoined(ItemLines(items[0]));
      assert PrintAll(items) == Block(items[0]) + "\n\n" + PrintAll(items[1..]);
    }
  }

  lemma {:induction false} NoReturnsJoined(lines: seq<string>)
    requires PlainLines(lines)
    ensures '\r' !in JoinLines(lines)
  {
    if lines != [] {
      assert PlainLine(lines[0]);
      NoReturnsJoined(lines[1..]);
    }
  }

  lemma PrintedIsRead<E>(items: seq<Item>, ended: bool, lenient: bool, parse: string -> Option<E>)
    requires AllPrintable(items)
    ensures ReadAll(PrintAll(items), ended, lenient, parse) == Values(Start(), items, parse)
  {
    PrintedReadsBack(Start(), items, "", lenient, parse);
    assert PrintAll(items) + "" == PrintAll(items);
    var s := Values(Start(), items, parse);
    assert Next(s, ParseBlock("", lenient, parse)) == s;
  }

  /** Round trip: however the printed text is cut into chunks, both readers hand on exactly the printed events, in order. */
  lemma RoundTrip<E>(items: seq<Item>, chunks: seq<string>, ended: bool, lenient: bool, parse: string -> Option<E>)
    requires AllPrintable(items) && Concat(chunks) == PrintAll(items)
    ensures ReadAll(Received(chunks), ended, lenient, parse) == Values(Start(), items, parse)
  {
    NoReturnsPrinted(items);
    NoReturns(chunks);
    PrintedIsRead(items, ended, lenient, parse);
  }

  /** Every event readable: the values are the parsed data of the events, and nothing fails. */
  lemma {:induction false} ValuesOfReadable<E>(s: Stream<E>, items: seq<Item>, parse: string -> Option<E>)
    requires !s.failed && forall k | 0 <= k < |items| && items[k].Message? :: parse(items[k].data).Some?
    ensures Values(s, items, parse) == Stream(s.events + Documents(items, parse), false)
    decreases |items|
  {
    if items != [] {
      assert items[0].Message? ==> parse(items[0].data).Some?;
      ValuesOfReadable(Next(s, Value(items[0], parse)), items[1..], parse);
      Sequences.Associates(s.events, Document(items[0], parse), Documents(items[1..], parse));
    }
    Sequences.Units(s.events);
  }

  function Documents<E>(items: seq<Item>, parse: string -> Option<E>): seq<E> {
    if items == [] then [] else Document(items[0], parse) + Documents(items[1..], parse)
  }

  function Document<E>(item: Item, parse: string -> Option<E>): seq<E> {
    if item.Message? && parse(item.data).Some? then [parse(item.data).value] else []
  }

  // ----- a stream cut short -----

  /** A prefix of joined lines is some of the lines and a prefix of the next. */
  lemma {:induction false} PrefixLines(lines: seq<string>, p: string) returns (m: nat, q: string)
    requires lines != [] && (forall k | 0 <= k < |lines| :: '\n' !in lines[k]) && p <= JoinLines(lines)
    ensures m < |lines| && q <= lines[m] && Lines(p) == lines[..m] + [q]
    ensures |p| >= |JoinLines(lines)| ==> m == |lines| - 1 && q == lines[m]
  {
    var l := lines[0];
    if |p| <= |l| {
      m, q := 0, p;
      assert |lines| > 1 ==> p <= l + "\n" + JoinLines(lines[1..]);
      assert p == l[..|p|];
      OneLine(p);
    } else {
      var more := JoinLines(lines[1..]);
      assert JoinLines(lines) == l + "\n" + more;
      var rest := p[|l| + 1..];
      assert p == l + "\n" + rest && rest <= more;
      m, q := PrefixLines(lines[1..], rest);
      m := m + 1;
      LineThen(l, rest);
      assert lines[..m] == [l] + lines[1..][..m - 1];
    }
  }

  lemma {:induction false} LastLineFeed(s: string)
    ensures Lines(s + "\n") == Lines(s) + [""]
  {
    if s == "" {
      assert s + "\n" == "\n" && Lines("\n"[1..]) == [""];
    } else {
      assert (s + "\n")[1..] == s[1..] + "\n" && (s + "\n")[0] == s[0];
      LastLineFeed(s[1..]);
    }
  }

  /** No proper beginning of an event's JSON text is itself a JSON text. */
  ghost predicate CutsAreBad<E>(item: Item, parse: string -> Option<E>) {
    item.Message? ==> forall p | p < item.data && p != "" :: parse(p).None?
  }

  /** What a block cut short leaves: nothing, a failure, or, when only line feeds are missing, the whole event. */
  ghost predicate CutShort<E>(r: Parsed<E>, item: Item, parse: string -> Option<E>) {
    r.Skipped? || r.Bad? || r == Value(item, parse)
  }

  lemma CutInside<E>(item: Item, p: string, lenient: bool, parse: string -> Option<E>)
    requires Printable(item) && CutsAreBad(item, parse) && p <= Block(item)
    ensures CutShort(ParseBlock(p, lenient, parse), item, parse)
  {
    ItemLinesArePlain(item);
    assert p == Block(item)[..|p|];
    var m, q := PrefixLines(ItemLines(item), p);
    CutLines(item, m, q, lenient, parse);
  }

  lemma CutBehind<E>(item: Item, lenient: bool, parse: string -> Option<E>)
    requires Printable(item) && CutsAreBad(item, parse)
    ensures CutShort(ParseBlock(Block(item) + "\n", lenient, parse), item, parse)
  {
    ItemLinesArePlain(item);
    LinesOfJoined(ItemLines(item));
    LastLineFeed(Block(item));
    NoReturnsToDrop(ItemLines(item) + [""]);
    ItemData(item, [""]);
  }

  lemma CutBlock<E>(item: Item, p: string, lenient: bool, parse: string -> Option<E>)
    requires Printable(item) && CutsAreBad(item, parse) && p < Print(item)
    ensures Blocks(p) == ([], p)
    ensures CutShort(ParseBlock(p, lenient, parse), item, parse)
  {
    var b := Block(item);
    PrintIsBlock(item);
    ItemLinesArePlain(item);
    JoinedIsSolid(ItemLines(item));
    NoBoundary(b, p);
    if |p| <= |b| {
      assert p == Print(item)[..|p|] && b == Print(item)[..|b|] && p == b[..|p|];
      CutInside(item, p, lenient, parse);
    } else {
      assert |p| == |b| + 1 && p == Print(item)[..|p|];
      assert p == b + "\n";
      CutBehind(item, lenient, parse);
    }
  }

  lemma NoBoundary(b: string, p: string)
    requires Solid(b) && p < b + "\n\n"
    ensures Boundary(p) == None
  {
    var s := b + "\n\n";
    assert forall i | 0 <= i < |p| :: p[i] == s[i];
    assert forall i | 0 <= i < |b| :: s[i] == b[i];
    forall i | 0 <= i < |p| - 1 ensures p[i] != '\n' || p[i + 1] != '\n' {
      var j := i + 1;
      if j < |b| { assert b[i] != '\n' || b[j] != '\n'; }
    }
  }

  lemma CutLines<E>(item: Item, m: nat, q: string, lenient: bool, parse: string -> Option<E>)
    requires Printable(item) && CutsAreBad(item, parse)
    requires m < |ItemLines(item)| && q <= ItemLines(item)[m]
    ensures var lines := ItemLines(item)[..m] + [q];
            var data := JoinLines(DataLines(if lenient then DropReturns(lines) else lines));
            data == "" || parse(data).None? || (item.Message? && data == item.data)
  {
    var all := ItemLines(item);
    var lines := all[..m] + [q];
    ItemLinesArePlain(item);
    assert PlainLine(all[m]) && forall k | 0 <= k < m :: PlainLine(all[k]);
    assert forall c | c in q :: c in all[m];
    NoReturnsToDrop(lines);
    if item.Message? && m == 2 {
      OtherLines(item);
      assert lines == [all[0], all[1], q];
      assert lines[1..] == [all[1], q] && lines[1..][1..] == [q] && lines[1..][1..][1..] == [];
      assert DataLines(lines) == DataLines([q]);
      CutData(item, q);
    } else {
      NoDataLines(item, m, q);
    }
  }

  lemma NoDataLines(item: Item, m: nat, q: string)
    requires m < |ItemLines(item)| && q <= ItemLines(item)[m] && (item.Message? ==> m < 2)
    ensures DataLines(ItemLines(item)[..m] + [q]) == []
  {
    var all := ItemLines(item);
    if item.Message? { OtherLines(item); } else { assert all[0][0] == ':'; }
    assert q != "" ==> q[0] == all[m][0] && q[0] != 'd';
    assert !("data:" <= q);
    assert DataLines([q]) == [] by { assert [q][1..] == []; }
    if m == 0 { assert all[..m] + [q] == [q]; } else { assert (all[..m] + [q])[1..] == [q]; }
  }

  lemma CutData(item: Item, q: string)
    requires Printable(item) && item.Message? && q <= "data: " + item.data
    ensures var d := DataLines([q]); JoinLines(d) <= item.data
  {
    assert [q][1..] == [];
    if "data:" <= q {
      if |q| == 5 {
        assert q[5..] == "";
      } else {
        var p := q[6..];
        assert q == ("data: " + item.data)[..|q|];
        assert q[5] == ' ' && q[5..] == " " + p && p <= item.data;
        assert (" " + p)[1..] == p;
        assert p != "" ==> p[0] == item.data[0];
        assert TrimStart(" " + p) == TrimStart(p) == p;
      }
    }
  }

  /** A cut leaves some items whole and one in pieces. */
  lemma {:induction false} CutText(items: seq<Item>, text: string) returns (n: nat, piece: string)
    requires text < PrintAll(items)
    ensures n < |items| && piece < Print(items[n]) && text == PrintAll(items[..n]) + piece
  {
    var first := Print(items[0]);
    CutPrefix(text, first, PrintAll(items[1..]));
    if |text| < |first| {
      n, piece := 0, text;
    } else {
      n, piece := CutText(items[1..], text[|first|..]);
      Sequences.TakeRest(items, n);
      Sequences.Associates(first, PrintAll(items[1..][..n]), piece);
      n := n + 1;
    }
  }

  lemma CutPrefix(text: string, first: string, more: string)
    requires text < first + more
    ensures |text| < |first| ==> text < first
    ensures |text| >= |first| ==> text == first + text[|first|..] && text[|first|..] < more
  {
    var all := first + more;
    assert text == all[..|text|];
    if |text| < |first| {
      assert text == first[..|text|];
    } else {
      assert text[|first|..] == more[..|text| - |first|];
    }
  }

  lemma CutReads<E>(items: seq<Item>, n: nat, piece: string, ended: bool, lenient: bool, parse: string -> Option<E>)
    requires AllPrintable(items) && n < |items| && piece < Print(items[n]) && CutsAreBad(items[n], parse)
    requires forall k | 0 <= k < |items| && items[k].Message? :: parse(items[k].data).Some?
    ensures var out := ReadAll(PrintAll(items[..n]) + piece, ended, lenient, parse);
            out.events == Documents(items[..n], parse) || out.events == Documents(items[..n + 1], parse)
  {
    var s := Values(Start(), items[..n], parse);
    PrintedReadsBack(Start(), items[..n], piece, lenient, parse);
    CutBlock(items[n], piece, lenient, parse);
    ValuesOfReadable(Start(), items[..n], parse);
    assert [] + Documents(items[..n], parse) == Documents(items[..n], parse);
    assert Feed(s, [], lenient, parse) == s;
    DocumentsNext(items, n, parse);
    LastDocument(items[n], parse);
  }

  lemma LastDocument<E>(item: Item, parse: string -> Option<E>)
    ensures Documents([item], parse) == Document(item, parse)
  {
    assert [item][1..] == [];
    Sequences.Units(Document(item, parse));
  }

  /** A connection that breaks anywhere, with an error or with an early clean end, and whatever the chunks:
      the reader hands on a beginning of the printed events, never a wrong or a partial one. */
  lemma CutStreamIsPrefix<E>(items: seq<Item>, chunks: seq<string>, ended: bool, lenient: bool, parse: string -> Option<E>)
    returns (n: nat)
    requires AllPrintable(items) && Concat(chunks) < PrintAll(items)
    requires forall k | 0 <= k < |items| :: CutsAreBad(items[k], parse)
    requires forall k | 0 <= k < |items| && items[k].Message? :: parse(items[k].data).Some?
    ensures n <= |items| && ReadAll(Received(chunks), ended, lenient, parse).events == Documents(items[..n], parse)
  {
    NoReturnsPrinted(items);
    assert forall c | c in Concat(chunks) :: c in PrintAll(items);
    NoReturns(chunks);
    var whole, piece := CutText(items, Concat(chunks));
    CutReads(items, whole, piece, ended, lenient, parse);
    n := if ReadAll(Received(chunks), ended, lenient, parse).events == Documents(items[..whole], parse) then whole else whole + 1;
  }

  lemma {:induction false} DocumentsNext<E>(items: seq<Item>, n: nat, parse: string -> Option<E>)
    requires n < |items|
    ensures Documents(items[..n + 1], parse) == Documents(items[..n], parse) + Documents([items[n]], parse)
  {
    if n == 0 {
      assert items[..1] == [items[0]] && items[..0] == [];
    } else {
      assert items[..n + 1][1..] == items[1..][..n] && items[..n][1..] == items[1..][..n - 1];
      DocumentsNext(items[1..], n - 1, parse);
    }
  }

  // ----- carriage returns -----

  /** A data line of some sender that ends its lines with carriage returns. */
  ghost predicate IsData(line: string, d: string) {
    line == "data:" + d && PlainLine(d) && !IsSpace(d[0])
  }

  lemma DataLine(line: string, d: string)
    requires IsData(line, d)
    ensures PlainLine(line) && Solid(line) && Unix(line) == line && Lines(line) == [line]
    ensures forall tail :: DataLines([line] + tail) == [d] + DataLines(tail)
  {
    PlainAfter("data:", d);
    UnixIdentity(line);
    OneLine(line);
    assert forall i | 0 <= i < |line| :: line[i] in line;
    forall tail ensures DataLines([line] + tail) == [d] + DataLines(tail) {
      assert ([line] + tail)[1..] == tail && line[5..] == d;
    }
  }

  lemma DataBlock<E>(line: string, d: string, parse: string -> Option<E>)
    requires IsData(line, d)
    ensures ParseBlock(line, true, parse) == match parse(d) case None => Bad case Some(e) => Got(e)
  {
    DataLine(line, d);
    assert [line] + [] == [line];
    assert DataLines([]) == [] && [d] + [] == [d];
  }

  lemma ReturnUnix()
    ensures Unix("\r") == "\r" && Unix("\r\n") == "\n"
  {
    assert "\r\n"[2..] == "";
  }

  /** Cleanly cut, text with carriage returns reads like text without. */
  lemma WholeReturnsAreTwoEvents(x: string, a: string, y: string, b: string, parse: string -> Option<string>)
    requires IsData(x, a) && IsData(y, b) && forall s :: parse(s) == Some(s)
    ensures ReadAll(Received([x + ("\r\n" + ("\r\n" + y))]), true, true, parse).events == [a, b]
  {
    WholeText(x, a, y, b);
    TwoBlocks(x, a, y, b);
    DataBlock(x, a, parse);
    DataBlock(y, b, parse);
    BothRead(x, a, y, b, parse);
  }

  lemma BothRead(x: string, a: string, y: string, b: string, parse: string -> Option<string>)
    requires ParseBlock(x, true, parse) == Got(a) && ParseBlock(y, true, parse) == Got(b)
    ensures Next(Feed(Start(), [x], true, parse), ParseBlock(y, true, parse)).events == [a, b]
  {
    assert [x][1..] == [];
    assert Next(Start(), Got(a)) == Stream([a], false);
    assert Feed(Next(Start(), Got(a)), [], true, parse) == Stream([a], false);
    assert [a] + [b] == [a, b];
  }

  lemma WholeText(x: string, a: string, y: string, b: string)
    requires IsData(x, a) && IsData(y, b)
    ensures Received([x + ("\r\n" + ("\r\n" + y))]) == x + "\n\n" + y
  {
    var text := x + ("\r\n" + ("\r\n" + y));
    ReturnUnix();
    DataLine(x, a);
    DataLine(y, b);
    UnixConcat("\r\n", y);
    UnixConcat("\r\n", "\r\n" + y);
    UnixConcat(x, "\r\n" + ("\r\n" + y));
    assert Unix(text) == x + ("\n" + ("\n" + y));
    OneChunk(text);
    TwoFeeds(x, y);
  }

  lemma OneChunk(text: string)
    ensures Received([text]) == Unix(text)
  {
    assert [text][..0] == [];
    assert Received([text]) == "" + Unix(text);
  }

  lemma TwoFeeds(x: string, y: string)
    ensures x + ("\n" + ("\n" + y)) == x + "\n\n" + y
  {}

  lemma TwoBlocks(x: string, a: string, y: string, b: string)
    requires IsData(x, a) && IsData(y, b)
    ensures Blocks(x + "\n\n" + y) == ([x], y)
  {
    DataLine(x, a);
    DataLine(y, b);
    SolidThen(x, y);
    SolidIsOneBlock(y);
    assert [x] + [] == [x];
  }

  lemma SolidIsOneBlock(s: string)
    requires Solid(s)
    ensures Blocks(s) == ([], s)
  {
    forall i | 0 <= i < |s| - 1 ensures s[i] != '\n' || s[i + 1] != '\n' {
      var j := i + 1;
      assert s[i] != '\n' || s[j] != '\n';
    }
  }

  /** Cut between a carriage return and its line feed, the blank line is missed: the two events become one. */
  lemma CutReturnsJoinEvents(x: string, a: string, y: string, b: string, parse: string -> Option<string>)
    requires IsData(x, a) && IsData(y, b) && forall s :: parse(s) == Some(s)
    ensures ReadAll(Received([x + ("\r\n" + "\r"), "\n" + y]), true, true, parse).events == [a + "\n" + b]
  {
    var text := x + "\n" + ("\r" + "\n" + y);
    CutReturns(x, a, y, b);
    JoinedData(x, a, y, b);
    DataLine(x, a);
    DataLine(y, b);
    NotBlank(x, y);
    assert ParseBlock(text, true, parse) == Got(a + "\n" + b);
    assert Feed(Start(), [], true, parse) == Start();
    assert [] + [a + "\n" + b] == [a + "\n" + b];
  }

  lemma JoinedData(x: string, a: string, y: string, b: string)
    requires IsData(x, a) && IsData(y, b)
    ensures JoinLines(DataLines(DropReturns(Lines(x + "\n" + ("\r" + "\n" + y))))) == a + "\n" + b
  {
    DataLine(x, a);
    DataLine(y, b);
    LineThen("\r", y);
    LineThen(x, "\r" + "\n" + y);
    JoinedDrop(x, y);
    DataOfThree(x, a, y, b);
  }

  lemma JoinedDrop(x: string, y: string)
    requires PlainLine(x)
    ensures DropReturns([x] + (["\r"] + [y])) == [x] + ([""] + [y])
  {
    var lines := [x] + (["\r"] + [y]);
    assert lines[1..] == ["\r"] + [y] && (["\r"] + [y])[1..] == [y];
    assert DropReturns(["\r"] + [y]) == [""] + [y];
    assert x[|x| - 1] in x;
  }

  lemma DataOfThree(x: string, a: string, y: string, b: string)
    requires IsData(x, a) && IsData(y, b)
    ensures JoinLines(DataLines([x] + ([""] + [y]))) == a + "\n" + b
  {
    DataLine(x, a);
    DataLine(y, b);
    assert ([""] + [y])[1..] == [y] && [y] + [] == [y];
    assert DataLines([y] + []) == [b] + DataLines([]);
    assert DataLines([""] + [y]) == [b] + [];
    assert ([a] + [b])[1..] == [b];
  }

  lemma CutReturns(x: string, a: string, y: string, b: string)
    requires IsData(x, a) && IsData(y, b)
    ensures Received([x + ("\r\n" + "\r"), "\n" + y]) == x + "\n" + ("\r" + "\n" + y)
  {
    FirstHalf(x, a);
    SecondHalf(y, b);
    TwoChunks(x + ("\r\n" + "\r"), "\n" + y);
    Sequences.Associates(x, "\n" + "\r", "\n" + y);
    Sequences.Associates("\n", "\r", "\n" + y);
    Sequences.Associates("\r", "\n", y);
    Sequences.Associates(x, "\n", "\r" + "\n" + y);
  }

  lemma FirstHalf(x: string, a: string)
    requires IsData(x, a)
    ensures Unix(x + ("\r\n" + "\r")) == x + ("\n" + "\r")
  {
    ReturnUnix();
    DataLine(x, a);
    UnixConcat("\r\n", "\r");
    UnixConcat(x, "\r\n" + "\r");
  }

  lemma SecondHalf(y: string, b: string)
    requires IsData(y, b)
    ensures Unix("\n" + y) == "\n" + y
  {
    DataLine(y, b);
    UnixConcat("\n", y);
    assert Unix("\n") == "\n";
  }

  lemma TwoChunks(first: string, second: string)
    ensures Received([first, second]) == Unix(first) + Unix(second)
  {
    var chunks := [first, second];
    OneChunk(first);
    assert chunks[..1] == [first];
  }

  lemma NotBlank(x: string, y: string)
    requires Solid(x) && Solid(y)
    ensures Blocks(x + "\n" + ("\r" + "\n" + y)) == ([], x + "\n" + ("\r" + "\n" + y))
  {
    assert '\n' !in "\r";
    assert Solid("\r" + "\n" + y) by { SolidAround("\r", y); }
    SolidAround(x, "\r" + "\n" + y);
    SolidIsOneBlock(x + "\n" + ("\r" + "\n" + y));
  }

  lemma SolidAround(l: string, more: string)
    requires Solid(l) && Solid(more)
    ensures Solid(l + "\n" + more)
  {
    var s := l + "\n" + more;
    assert forall i | 0 <= i < |l| :: s[i] == l[i];
    assert forall i | |l| < i < |s| :: s[i] == more[i - |l| - 1];
    forall i, j | 0 <= i && j == i + 1 < |s| ensures s[i] != '\n' || s[j] != '\n' {
      if j < |l| { assert l[i] != '\n' || l[j] != '\n'; }
      if i > |l| { assert more[i - |l| - 1] != '\n' || more[j - |l| - 1] != '\n'; }
    }
  }
}

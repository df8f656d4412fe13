/** What the output is in terms of the token list alone, without the trees that it stands for. */
module MarkdownOutput {
  import opened Wrappers
  import opened MarkdownBlocks

  // ---------------------------------------------------------------- from left to right

  /** A start token that is still open, or none at the bottom, and what has been put out since. */
  datatype Layer<L> = Layer(start: Option<Token<L>>, body: string)

  /** `run` is the text since the last token that was not a text. */
  datatype Progress<L> = Progress(layers: seq<Layer<L>>, run: Option<string>)

  predicate Tight<L>(start: Option<Token<L>>) { start.Some? && start.value.ItemStart? && !start.value.loose }

  function Wrapped<L>(r: Renderer<L>, start: Option<Token<L>>, text: string): string {
    if Tight(start) then r.inline(text) else r.paragraph(r.inline(text))
  }

  function Put<L>(layers: seq<Layer<L>>, piece: string): (s: seq<Layer<L>>)
    requires layers != []
    ensures |s| == |layers|
  {
    var n := |layers| - 1;
    layers[n := Layer(layers[n].start, layers[n].body + piece)]
  }

  function Flush<L>(r: Renderer<L>, p: Progress<L>): (q: Progress<L>)
    requires p.layers != []
    ensures |q.layers| == |p.layers| && q.run.None?
  {
    match p.run
    case None => p
    case Some(text) => Progress(Put(p.layers, Wrapped(r, p.layers[|p.layers| - 1].start, text)), None)
  }

  /** The output of a block with its contents. */
  function Enclosed<L>(r: Renderer<L>, start: Option<Token<L>>, body: string): string {
    match start
    case Some(QuoteStart) => r.quote(body)
    case Some(ListStart(ordered)) => r.list(body, ordered)
    case Some(ItemStart(_)) => r.item(body)
    case _ => body
  }

  function Take<L>(r: Renderer<L>, p: Progress<L>, t: Token<L>): (q: Progress<L>)
    requires p.layers != []
    ensures q.layers != []
  {
    if t.TextToken? then p.(run := Some(if p.run.Some? then p.run.value + "\n" + t.text else t.text))
    else
      var q := Flush(r, p);
      var n := |q.layers| - 1;
      if t.LeafToken? then Progress(Put(q.layers, r.block(t.leaf)), None)
      else if !Ending(t) then Progress(q.layers + [Layer(Some(t), "")], None)
      else if n == 0 then q
      else Progress(Put(q.layers[..n], Enclosed(r, q.layers[n].start, q.layers[n].body)), None)
  }

  function Feed<L>(r: Renderer<L>, p: Progress<L>, x: seq<Token<L>>): (q: Progress<L>)
    requires p.layers != []
    ensures q.layers != []
  {
    if x == [] then p else Take(r, Feed(r, p, x[..|x| - 1]), x[|x| - 1])
  }

  function From<L>(start: Option<Token<L>>): Progress<L> { Progress([Layer(start, "")], None) }

  /** What a token list adds to the output when this start token is open around it. */
  function Output<L>(r: Renderer<L>, start: Option<Token<L>>, x: seq<Token<L>>): string {
    Flush(r, Feed(r, From(start), x)).layers[0].body
  }

  // ---------------------------------------------------------------- it is the rendered tree

  lemma {:induction false} FeedJoin<L>(r: Renderer<L>, p: Progress<L>, x: seq<Token<L>>, y: seq<Token<L>>)
    requires p.layers != []
    ensures Feed(r, p, x + y) == Feed(r, Feed(r, p, x), y)
  {
    hide Take;
    if y == [] {
      assert x + y == x;
    } else {
      var n := |y| - 1;
      FeedJoin(r, p, x, y[..n]);
      assert (x + y)[..|x + y| - 1] == x + y[..n];
    }
  }

  lemma {:induction false} FeedOne<L>(r: Renderer<L>, p: Progress<L>, t: Token<L>)
    requires p.layers != []
    ensures Feed(r, p, [t]) == Take(r, p, t)
  {
    assert Feed(r, p, [t][..0]) == p;
  }

  lemma {:induction false} PutTwice<L>(layers: seq<Layer<L>>, a: string, b: string)
    requires layers != []
    ensures Put(Put(layers, a), b) == Put(layers, a + b)
    ensures Put(layers, a)[|layers| - 1].start == layers[|layers| - 1].start
  {
    assert layers[|layers| - 1].body + a + b == layers[|layers| - 1].body + (a + b);
  }

  lemma {:induction false} PutNothing<L>(layers: seq<Layer<L>>)
    requires layers != []
    ensures Put(layers, "") == layers
  {
    assert layers[|layers| - 1].body + "" == layers[|layers| - 1].body;
  }

  /** A token other than a text comes after what was flushed. */
  lemma {:induction false} TakeFlushed<L>(r: Renderer<L>, p: Progress<L>, t: Token<L>)
    requires p.layers != [] && !t.TextToken?
    ensures Take(r, p, t) == Take(r, Flush(r, p), t)
  {
  }

  function TopStart<L>(p: Progress<L>): Option<Token<L>>
    requires p.layers != []
  {
    p.layers[|p.layers| - 1].start
  }

  lemma {:induction false} FlushNothing<L>(r: Renderer<L>, p: Progress<L>)
    requires p.layers != [] && p.run.None?
    ensures Flush(r, p) == p
  {
  }

  lemma {:induction false} FeedForest<L>(r: Renderer<L>, p: Progress<L>, f: Forest<L>)
    requires p.layers != [] && p.run.None?
    ensures Flush(r, Feed(r, p, Lin(f))) == Progress(Put(p.layers, Render(r, f, Tight(TopStart(p)))), None)
    decreases f, 1
  {
    hide Take, Put, Flush;
    match f
    case Nil =>
      PutNothing(p.layers);
      FlushNothing(r, p);
    case Cons(b, rest) =>
      FeedJoin(r, p, LinBlock(b), Lin(rest));
      if b.Text? {
        FeedOne(r, p, TextToken(b.text));
        TakeText(r, p, b.text);
        FeedRun(r, p, b.text, rest);
      } else {
        FeedBlock(r, p, b);
        var piece := RenderBlock(r, b);
        PutTwice(p.layers, piece, Render(r, rest, Tight(TopStart(p))));
        FeedForest(r, Progress(Put(p.layers, piece), None), rest);
      }
  }

  lemma {:induction false} FeedFlushed<L>(r: Renderer<L>, p: Progress<L>, x: seq<Token<L>>)
    requires p.layers != [] && x != [] && !x[0].TextToken?
    ensures Feed(r, p, x) == Feed(r, Flush(r, p), x)
  {
    hide Take, Flush;
    assert x == [x[0]] + x[1..];
    FeedJoin(r, p, [x[0]], x[1..]);
    FeedJoin(r, Flush(r, p), [x[0]], x[1..]);
    FeedOne(r, p, x[0]);
    FeedOne(r, Flush(r, p), x[0]);
    TakeFlushed(r, p, x[0]);
  }

  /** A text that has begun takes in the texts after it. */
  lemma {:induction false} FeedRun<L>(r: Renderer<L>, p: Progress<L>, body: string, f: Forest<L>)
    requires p.layers != [] && p.run.None?
    ensures Flush(r, Feed(r, p.(run := Some(body)), Lin(f))) == Progress(Put(p.layers,
      Wrapped(r, TopStart(p), RunText(body, f)) + Render(r, AfterRun(f), Tight(TopStart(p)))), None)
    decreases f, 1
  {
    hide Take, Put, Wrapped;
    var q := p.(run := Some(body));
    var piece := Wrapped(r, TopStart(p), RunText(body, f));
    match f
    case Nil => assert piece + "" == piece;
    case Cons(b, rest) =>
      FeedJoin(r, q, LinBlock(b), Lin(rest));
      if b.Text? {
        FeedOne(r, q, TextToken(b.text));
        TakeText(r, q, b.text);
        FeedRun(r, p, body + "\n" + b.text, rest);
      } else {
        FirstOfBlock(b, []);
        FeedFlushed(r, q, LinBlock(b));
        FeedPiece(r, p, piece, f);
      }
  }

  lemma {:induction false} TakeText<L>(r: Renderer<L>, p: Progress<L>, text: string)
    requires p.layers != []
    ensures Take(r, p, TextToken(text)) == p.(run := Some(if p.run.None? then text else p.run.value + "\n" + text))
  {
  }

  lemma {:induction false} FeedPiece<L>(r: Renderer<L>, p: Progress<L>, piece: string, f: Forest<L>)
    requires p.layers != [] && p.run.None? && f.Cons? && !f.head.Text?
    ensures Flush(r, Feed(r, Feed(r, Progress(Put(p.layers, piece), None), LinBlock(f.head)), Lin(f.tail)))
      == Progress(Put(p.layers, piece + Render(r, f, Tight(TopStart(p)))), None)
    decreases f, 0
  {
    hide Take, Put, Flush, Feed;
    var tight := Tight(TopStart(p));
    var q := Progress(Put(p.layers, piece), None);
    var out := RenderBlock(r, f.head);
    PutTwice(p.layers, piece, out);
    PutTwice(p.layers, piece + out, Render(r, f.tail, tight));
    FeedBlock(r, q, f.head);
    FeedForest(r, Progress(Put(p.layers, piece + out), None), f.tail);
    assert piece + out + Render(r, f.tail, tight) == piece + Render(r, f, tight);
  }

  lemma {:induction false} FeedBlock<L>(r: Renderer<L>, p: Progress<L>, b: Block<L>)
    requires p.layers != [] && p.run.None? && !b.Text?
    ensures Feed(r, p, LinBlock(b)) == Progress(Put(p.layers, RenderBlock(r, b)), None)
    decreases b, 0
  {
    hide Take, Put, Flush, Feed, Lin;
    match b
    case Leaf(l) =>
      FeedOne(r, p, LeafToken(l));
      TakeLeaf(r, p, l);
    case Quote(f) => FeedContents(r, p, QuoteStart, f, QuoteEnd);
    case List(o, f) => FeedContents(r, p, ListStart(o), f, ListEnd);
    case Item(l, f) => FeedContents(r, p, ItemStart(l), f, ItemEnd);
  }

  lemma {:induction false} TakeLeaf<L>(r: Renderer<L>, p: Progress<L>, l: L)
    requires p.layers != [] && p.run.None?
    ensures Take(r, p, LeafToken(l)) == Progress(Put(p.layers, r.block(l)), None)
  {
  }

  lemma {:induction false} FeedContents<L>(r: Renderer<L>, p: Progress<L>, start: Token<L>, f: Forest<L>, end: Token<L>)
    requires p.layers != [] && p.run.None? && Ending(end)
    requires !start.TextToken? && !start.LeafToken? && !Ending(start)
    ensures Feed(r, p, [start] + Lin(f) + [end])
      == Progress(Put(p.layers, Enclosed(r, Some(start), Render(r, f, Tight(Some(start))))), None)
    decreases f, 2
  {
    hide Put, Flush, Feed, Render;
    var q := Progress(p.layers + [Layer(Some(start), "")], None);
    FeedOne(r, p, start);
    assert Take(r, p, start) == q by { TakeStart(r, p, start); }
    FeedJoin(r, p, [start], Lin(f));
    FeedJoin(r, p, [start] + Lin(f), [end]);
    FeedOne(r, Feed(r, p, [start] + Lin(f)), end);
    FeedForest(r, q, f);
    TakeFlushed(r, Feed(r, q, Lin(f)), end);
    TakeEnd(r, p, start, Render(r, f, Tight(Some(start))), end);
  }

  lemma {:induction false} TakeStart<L>(r: Renderer<L>, p: Progress<L>, start: Token<L>)
    requires p.layers != [] && p.run.None? && !start.TextToken? && !start.LeafToken? && !Ending(start)
    ensures Take(r, p, start) == Progress(p.layers + [Layer(Some(start), "")], None)
  {
  }

  lemma {:induction false} TakeEnd<L>(r: Renderer<L>, p: Progress<L>, start: Token<L>, body: string, end: Token<L>)
    requires p.layers != [] && Ending(end)
    ensures var q := Progress(Put(p.layers + [Layer(Some(start), "")], body), None);
      Take(r, q, end) == Progress(Put(p.layers, Enclosed(r, Some(start), body)), None)
  {
    assert "" + body == body;
    assert (p.layers + [Layer(Some(start), body)])[..|p.layers|] == p.layers;
  }

  /** Reading the tokens from left to right gives what the tree gives. */
  lemma {:induction false} OutputOfTree<L>(r: Renderer<L>, start: Option<Token<L>>, f: Forest<L>)
    ensures Output(r, start, Lin(f)) == Render(r, f, Tight(start))
  {
    hide Feed, Flush, Render;
    FeedForest(r, From(start), f);
    assert "" + Render(r, f, Tight(start)) == Render(r, f, Tight(start));
  }

  lemma {:induction false} OutputOfBlock<L>(r: Renderer<L>, b: Block<L>)
    requires !b.Text?
    ensures Output(r, None, LinBlock(b)) == RenderBlock(r, b)
  {
    hide Feed, Flush;
    FeedBlock(r, From(None), b);
    FlushNothing(r, Progress(Put(From<L>(None).layers, RenderBlock(r, b)), None));
    assert "" + RenderBlock(r, b) == RenderBlock(r, b);
  }

  // ---------------------------------------------------------------- rewriting the token list

  /** The start tokens in a token list that are still open at its end. */
  function OpenStarts<L>(x: seq<Token<L>>): seq<Token<L>> {
    if x == [] then []
    else
      var open, t := OpenStarts(x[..|x| - 1]), x[|x| - 1];
      if t.LeafToken? || t.TextToken? then open
      else if !Ending(t) then open + [t]
      else if open == [] then [] else open[..|open| - 1]
  }

  function Innermost<L>(x: seq<Token<L>>): Option<Token<L>> {
    var open := OpenStarts(x); if open == [] then None else Some(open[|open| - 1])
  }

  function Join(texts: seq<string>): string
    requires texts != []
  {
    var n := |texts| - 1; if n == 0 then texts[0] else Join(texts[..n]) + "\n" + texts[n]
  }

  function TextTokens<L>(texts: seq<string>): (x: seq<Token<L>>)
    ensures |x| == |texts|
  {
    seq(|texts|, i requires 0 <= i < |texts| => TextToken(texts[i]))
  }

  function LeafTokens<L>(leaves: seq<L>): (x: seq<Token<L>>)
    ensures |x| == |leaves|
  {
    seq(|leaves|, i requires 0 <= i < |leaves| => LeafToken(leaves[i]))
  }

  function BlocksOf<L>(r: Renderer<L>, leaves: seq<L>): string {
    if leaves == [] then "" else BlocksOf(r, leaves[..|leaves| - 1]) + r.block(leaves[|leaves| - 1])
  }

  lemma {:induction false} LayersAreOpen<L>(r: Renderer<L>, x: seq<Token<L>>)
    ensures var layers, open := Feed(r, From(None), x).layers, OpenStarts(x);
      && |layers| == |open| + 1 && layers[0].start.None?
      && forall i :: 0 <= i < |open| ==> layers[i + 1].start == Some(open[i])
  {
    hide Enclosed, Wrapped;
    if x != [] {
      LayersAreOpen(r, x[..|x| - 1]);
    }
  }

  lemma {:induction false} TopIsInnermost<L>(r: Renderer<L>, x: seq<Token<L>>)
    ensures TopStart(Feed(r, From(None), x)) == Innermost(x)
  {
    LayersAreOpen(r, x);
  }

  /** Flushing afterwards makes no difference to what follows, unless that is a text. */
  lemma {:induction false} SameFromHere<L>(r: Renderer<L>, a: seq<Token<L>>, c: seq<Token<L>>, b: seq<Token<L>>)
    requires Flush(r, Feed(r, From(None), a)) == Flush(r, Feed(r, From(None), c))
    requires b == [] || !b[0].TextToken?
    ensures Output(r, None, a + b) == Output(r, None, c + b)
  {
    hide Flush, Feed;
    FeedJoin(r, From(None), a, b);
    FeedJoin(r, From(None), c, b);
    if b == [] {
      assert a + b == a && c + b == c;
    } else {
      FeedFlushed(r, Feed(r, From(None), a), b);
      FeedFlushed(r, Feed(r, From(None), c), b);
    }
  }

  lemma {:induction false} FeedTexts<L>(r: Renderer<L>, p: Progress<L>, texts: seq<string>)
    requires p.layers != [] && p.run.None? && texts != []
    ensures Feed(r, p, TextTokens(texts)) == p.(run := Some(Join(texts)))
  {
    hide Take;
    var n := |texts| - 1;
    assert TextTokens<L>(texts)[..n] == TextTokens<L>(texts[..n]);
    if n > 0 {
      FeedTexts(r, p, texts[..n]);
      TakeText(r, p.(run := Some(Join(texts[..n]))), texts[n]);
    } else {
      assert Feed(r, p, TextTokens(texts)[..0]) == p;
      TakeText(r, p, texts[0]);
    }
  }

  /** The texts between two other tokens go through the inline lexer once, joined by line breaks, and become a paragraph
      exactly if the innermost open token is not the start of a tight item: a block with that output in their place
      gives the same. */
  lemma {:induction false} TextsAreOneBlock<L>(r: Renderer<L>, a: seq<Token<L>>, texts: seq<string>, b: seq<Token<L>>,
      l: L)
    requires texts != [] && (a == [] || !a[|a| - 1].TextToken?) && (b == [] || !b[0].TextToken?)
    requires r.block(l)
      == if Innermost(a) == Some(ItemStart(false)) then r.inline(Join(texts)) else r.paragraph(r.inline(Join(texts)))
    ensures Output(r, None, a + TextTokens(texts) + b) == Output(r, None, a + [LeafToken(l)] + b)
  {
    hide Feed, Take, Put, Innermost, Join;
    var p := Feed(r, From(None), a);
    NoRunYet(r, a);
    TopIsInnermost(r, a);
    FeedJoin(r, From(None), a, TextTokens(texts));
    FeedJoin(r, From(None), a, [LeafToken(l)]);
    FeedTexts(r, p, texts);
    FeedOne(r, p, LeafToken(l));
    TakeLeaf(r, p, l);
    SameFromHere(r, a + TextTokens(texts), a + [LeafToken(l)], b);
  }

  lemma {:induction false} NoRunYet<L>(r: Renderer<L>, a: seq<Token<L>>)
    requires a == [] || !a[|a| - 1].TextToken?
    ensures Feed(r, From(None), a).run.None?
  {
  }

  lemma {:induction false} FeedLeaves<L>(r: Renderer<L>, p: Progress<L>, leaves: seq<L>)
    requires p.layers != [] && p.run.None?
    ensures Feed(r, p, LeafTokens(leaves)) == Progress(Put(p.layers, BlocksOf(r, leaves)), None)
  {
    hide Take, Put;
    if leaves == [] {
      PutNothing(p.layers);
    } else {
      var n := |leaves| - 1;
      var q := Progress(Put(p.layers, BlocksOf(r, leaves[..n])), None);
      assert LeafTokens(leaves)[..n] == LeafTokens(leaves[..n]);
      FeedLeaves(r, p, leaves[..n]);
      TakeLeaf(r, q, leaves[n]);
      PutTwice(p.layers, BlocksOf(r, leaves[..n]), r.block(leaves[n]));
    }
  }

  /** Blocks are put out one after the other. */
  lemma {:induction false} LeavesInOrder<L>(r: Renderer<L>, leaves: seq<L>)
    ensures Output(r, None, LeafTokens(leaves)) == BlocksOf(r, leaves)
  {
    FeedLeaves(r, From(None), leaves);
    assert "" + BlocksOf(r, leaves) == BlocksOf(r, leaves);
  }

  predicate Matching<L>(start: Token<L>, end: Token<L>) {
    (start.QuoteStart? && end.QuoteEnd?) || (start.ListStart? && end.ListEnd?) || (start.ItemStart? && end.ItemEnd?)
  }

  /** A start token, its blocks and its end go through the renderer's method once, a list with the flag of its own start
      token: a block with that output in their place gives the same. */
  lemma {:induction false} ContentsAreOneBlock<L>(r: Renderer<L>, a: seq<Token<L>>, start: Token<L>, leaves: seq<L>,
      end: Token<L>, b: seq<Token<L>>, l: L)
    requires Matching(start, end) && (b == [] || !b[0].TextToken?)
    requires start.QuoteStart? ==> r.block(l) == r.quote(BlocksOf(r, leaves))
    requires start.ListStart? ==> r.block(l) == r.list(BlocksOf(r, leaves), start.ordered)
    requires start.ItemStart? ==> r.block(l) == r.item(BlocksOf(r, leaves))
    ensures Output(r, None, a + ([start] + LeafTokens(leaves) + [end]) + b) == Output(r, None, a + [LeafToken(l)] + b)
  {
    hide Feed, Take, Put, Flush;
    var p := Feed(r, From(None), a);
    var x := [start] + LeafTokens(leaves) + [end];
    FeedJoin(r, From(None), a, x);
    FeedJoin(r, From(None), a, [LeafToken(l)]);
    FeedFlushed(r, p, x);
    FeedFlushed(r, p, [LeafToken(l)]);
    FeedEnclosed(r, Flush(r, p), start, leaves, end);
    FeedOne(r, Flush(r, p), LeafToken(l));
    TakeLeaf(r, Flush(r, p), l);
    SameFromHere(r, a + x, a + [LeafToken(l)], b);
  }

  lemma {:induction false} FeedEnclosed<L>(r: Renderer<L>, p: Progress<L>, start: Token<L>, leaves: seq<L>,
      end: Token<L>)
    requires p.layers != [] && p.run.None? && Matching(start, end)
    ensures Feed(r, p, [start] + LeafTokens(leaves) + [end])
      == Progress(Put(p.layers, Enclosed(r, Some(start), BlocksOf(r, leaves))), None)
  {
    hide Put, Feed, Take;
    var q := Progress(p.layers + [Layer(Some(start), "")], None);
    FeedOne(r, p, start);
    TakeStart(r, p, start);
    FeedJoin(r, p, [start], LeafTokens(leaves));
    FeedJoin(r, p, [start] + LeafTokens(leaves), [end]);
    FeedOne(r, Feed(r, p, [start] + LeafTokens(leaves)), end);
    FeedLeaves(r, q, leaves);
    TakeEnd(r, p, start, BlocksOf(r, leaves), end);
  }

  /** A list of one item with one text. */
  lemma {:induction false} SingleItem<L>(r: Renderer<L>, ordered: bool, loose: bool, text: string)
    ensures Output(r, None, [ListStart(ordered), ItemStart(loose), TextToken(text), ItemEnd, ListEnd])
      == r.list(r.item(if loose then r.paragraph(r.inline(text)) else r.inline(text)), ordered)
  {
    var only: Forest<L> := Cons(Text(text), Nil);
    var item := Item(loose, only);
    var f := Cons(List(ordered, Cons(item, Nil)), Nil);
    var inside: seq<Token<L>> := [ItemStart(loose), TextToken(text), ItemEnd];
    assert Lin<L>(Nil) == [];
    assert LinBlock(only.head) == [TextToken(text)];
    assert Lin(only) == [TextToken(text)];
    assert LinBlock(item) == inside;
    assert Lin(Cons(item, Nil)) == inside;
    assert Lin(f) == [ListStart(ordered)] + inside + [ListEnd];
    assert Lin(f) == [ListStart(ordered), ItemStart(loose), TextToken(text), ItemEnd, ListEnd];
    OutputOfTree(r, None, f);
    var inner := if loose then r.paragraph(r.inline(text)) else r.inline(text);
    assert inner + "" == inner;
    assert Render(r, only, !loose) == inner;
    assert r.item(inner) + "" == r.item(inner);
    assert Render(r, Cons(item, Nil), false) == r.item(inner);
    assert r.list(r.item(inner), ordered) + "" == r.list(r.item(inner), ordered);
  }
}

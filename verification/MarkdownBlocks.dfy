/** Block tokens, the trees that token lists stand for, and how a tree is rendered. */
module MarkdownBlocks {
  /** `L` stands for the tokens that are blocks by themselves: spaces, rules, headings, code, tables, paragraphs and
      HTML. */
  datatype Token<L> =
    | LeafToken(leaf: L)
    | TextToken(text: string)
    | QuoteStart
    | QuoteEnd
    | ListStart(ordered: bool)
    | ListEnd
    | ItemStart(loose: bool)
    | ItemEnd

  datatype Forest<L> = Nil | Cons(head: Block<L>, tail: Forest<L>)

  datatype Block<L> =
    | Leaf(leaf: L)
    | Text(text: string)
    | Quote(inner: Forest<L>)
    | List(ordered: bool, items: Forest<L>)
    | Item(loose: bool, inner: Forest<L>)

  // ---------------------------------------------------------------- linearising

  function Lin<L>(f: Forest<L>): seq<Token<L>> {
    match f case Nil => [] case Cons(b, rest) => LinBlock(b) + Lin(rest)
  }

  function LinBlock<L>(b: Block<L>): seq<Token<L>> {
    match b
    case Leaf(l) => [LeafToken(l)]
    case Text(s) => [TextToken(s)]
    case Quote(f) => [QuoteStart] + Lin(f) + [QuoteEnd]
    case List(o, f) => [ListStart(o)] + Lin(f) + [ListEnd]
    case Item(l, f) => [ItemStart(l)] + Lin(f) + [ItemEnd]
  }

  function Append<L>(f: Forest<L>, g: Forest<L>): Forest<L> {
    match f case Nil => g case Cons(b, rest) => Cons(b, Append(rest, g))
  }

  lemma {:induction false} Regroup<L>(a: seq<Token<L>>, b: seq<Token<L>>, c: seq<Token<L>>)
    ensures a + (b + c) == (a + b) + c
  {
  }

  lemma {:induction false} LinAppend<L>(f: Forest<L>, g: Forest<L>)
    ensures Lin(Append(f, g)) == Lin(f) + Lin(g)
  {
    match f
    case Nil =>
    case Cons(b, rest) =>
      LinAppend(rest, g);
      Regroup(LinBlock(b), Lin(rest), Lin(g));
  }

  lemma {:induction false} AppendAssociates<L>(f: Forest<L>, g: Forest<L>, h: Forest<L>)
    ensures Append(Append(f, g), h) == Append(f, Append(g, h))
  {
    match f
    case Nil =>
    case Cons(b, rest) => AppendAssociates(rest, g, h);
  }

  // ---------------------------------------------------------------- a token list stands for one tree only

  predicate Ending<L>(t: Token<L>) { t.QuoteEnd? || t.ListEnd? || t.ItemEnd? }

  /** What comes after a forest: nothing, or the end of the block around it. */
  predicate Closed<L>(x: seq<Token<L>>) { x == [] || Ending(x[0]) }

  lemma {:induction false} FirstOfBlock<L>(b: Block<L>, x: seq<Token<L>>)
    ensures |LinBlock(b)| > 0 && !Ending(LinBlock(b)[0]) && (LinBlock(b) + x)[0] == LinBlock(b)[0]
    ensures match LinBlock(b)[0]
      case LeafToken(l) => b == Leaf(l)
      case TextToken(s) => b == Text(s)
      case QuoteStart => b.Quote?
      case ListStart(o) => b.List? && b.ordered == o
      case ItemStart(l) => b.Item? && b.loose == l
      case _ => true
  {
  }

  /** A block with contents is its first token, its contents, and its last token. */
  lemma {:induction false} InnerOf<L>(start: Token<L>, f: Forest<L>, end: Token<L>, x: seq<Token<L>>)
    ensures (([start] + Lin(f) + [end]) + x)[1..] == Lin(f) + ([end] + x)
  {
  }

  lemma {:induction false} UniqueBlock<L>(b: Block<L>, c: Block<L>, x: seq<Token<L>>, y: seq<Token<L>>)
    requires LinBlock(b) + x == LinBlock(c) + y
    ensures b == c && x == y
    decreases b, 0
  {
    FirstOfBlock(b, x);
    FirstOfBlock(c, y);
    match b
    case Leaf(_) =>
      assert x == (LinBlock(b) + x)[1..] && y == (LinBlock(c) + y)[1..];
    case Text(_) =>
      assert x == (LinBlock(b) + x)[1..] && y == (LinBlock(c) + y)[1..];
    case Quote(f) =>
      InnerOf(QuoteStart, f, QuoteEnd, x);
      InnerOf(QuoteStart, c.inner, QuoteEnd, y);
      UniqueForest(f, c.inner, [QuoteEnd] + x, [QuoteEnd] + y);
      assert x == ([QuoteEnd] + x)[1..] && y == ([QuoteEnd] + y)[1..];
    case List(o, f) =>
      InnerOf(ListStart(o), f, ListEnd, x);
      InnerOf(ListStart(o), c.items, ListEnd, y);
      UniqueForest(f, c.items, [ListEnd] + x, [ListEnd] + y);
      assert x == ([ListEnd] + x)[1..] && y == ([ListEnd] + y)[1..];
    case Item(l, f) =>
      InnerOf(ItemStart(l), f, ItemEnd, x);
      InnerOf(ItemStart(l), c.inner, ItemEnd, y);
      UniqueForest(f, c.inner, [ItemEnd] + x, [ItemEnd] + y);
      assert x == ([ItemEnd] + x)[1..] && y == ([ItemEnd] + y)[1..];
  }

  lemma {:induction false} UniqueForest<L>(f: Forest<L>, g: Forest<L>, x: seq<Token<L>>, y: seq<Token<L>>)
    requires Lin(f) + x == Lin(g) + y && Closed(x) && Closed(y)
    ensures f == g && x == y
    decreases f, 1
  {
    Leading(f, x);
    Leading(g, y);
    if f.Cons? && g.Cons? {
      UniqueBlock(f.head, g.head, Lin(f.tail) + x, Lin(g.tail) + y);
      UniqueForest(f.tail, g.tail, x, y);
    }
  }

  /** Whether a forest is empty can be seen from the first token. */
  lemma {:induction false} Leading<L>(f: Forest<L>, x: seq<Token<L>>)
    requires Closed(x)
    ensures if f.Nil? then Lin(f) + x == x else Lin(f) + x == LinBlock(f.head) + (Lin(f.tail) + x)
    ensures f.Nil? <==> Closed(Lin(f) + x)
  {
    if f.Cons? {
      StartsOpen(f.head, Lin(f.tail) + x);
    }
  }

  lemma {:induction false} StartsOpen<L>(b: Block<L>, x: seq<Token<L>>)
    ensures !Closed(LinBlock(b) + x)
  {
    FirstOfBlock(b, x);
  }

  /** No two trees have the same tokens. */
  lemma {:induction false} LinIsInjective<L>(f: Forest<L>, g: Forest<L>)
    requires Lin(f) == Lin(g)
    ensures f == g
  {
    assert Lin(f) + [] == Lin(g) + [];
    UniqueForest(f, g, [], []);
  }

  // ---------------------------------------------------------------- rendering

  /** The renderer, and the inline lexer that all text goes through. */
  datatype Renderer<!L> = Renderer(
    block: L -> string, inline: string -> string, paragraph: string -> string, quote: string -> string,
    list: (string, bool) -> string, item: string -> string)

  /** The texts at the start of a forest, joined to the given one by line breaks. */
  function RunText<L>(body: string, f: Forest<L>): string
    decreases f
  {
    if f.Cons? && f.head.Text? then RunText(body + "\n" + f.head.text, f.tail) else body
  }

  function AfterRun<L>(f: Forest<L>): (r: Forest<L>)
    ensures r == f || r < f
  {
    if f.Cons? && f.head.Text? then AfterRun(f.tail) else f
  }

  /** In a tight list item, text is not made a paragraph. */
  function Render<L>(r: Renderer<L>, f: Forest<L>, tight: bool): string
    decreases f, 1
  {
    match f
    case Nil => ""
    case Cons(b, rest) =>
      if b.Text? then
        (if tight then r.inline(RunText(b.text, rest)) else r.paragraph(r.inline(RunText(b.text, rest))))
        + Render(r, AfterRun(rest), tight)
      else RenderBlock(r, b) + Render(r, rest, tight)
  }

  function RenderBlock<L>(r: Renderer<L>, b: Block<L>): string
    decreases b, 0
  {
    match b
    case Leaf(l) => r.block(l)
    case Text(s) => r.paragraph(r.inline(s))
    case Quote(f) => r.quote(Render(r, f, false))
    case List(o, f) => r.list(Render(r, f, false), o)
    case Item(l, f) => r.item(Render(r, f, !l))
  }
}

/** The parser that renders a token list. */
module MarkdownParser {
  import opened Wrappers
  import opened MarkdownBlocks
  import opened MarkdownOutput
  import opened MarkdownLexer

  /** The tokens of a forest, last one first: how they lie on the parser's stack. */
  function Stacked<L>(f: Forest<L>): seq<Token<L>> {
    match f case Nil => [] case Cons(b, rest) => Stacked(rest) + StackedBlock(b)
  }

  function StackedBlock<L>(b: Block<L>): (r: seq<Token<L>>)
    ensures |r| > 0
  {
    match b
    case Leaf(l) => [LeafToken(l)]
    case Text(s) => [TextToken(s)]
    case Quote(f) => [QuoteEnd] + Stacked(f) + [QuoteStart]
    case List(o, f) => [ListEnd] + Stacked(f) + [ListStart(o)]
    case Item(l, f) => [ItemEnd] + Stacked(f) + [ItemStart(l)]
  }

  function Reversed<L>(s: seq<Token<L>>): (r: seq<Token<L>>)
    ensures |r| == |s| && forall i :: 0 <= i < |s| ==> r[i] == s[|s| - 1 - i]
  {
    seq(|s|, i requires 0 <= i < |s| => s[|s| - 1 - i])
  }

  lemma {:induction false} ReversedJoin<L>(a: seq<Token<L>>, b: seq<Token<L>>)
    ensures Reversed(a + b) == Reversed(b) + Reversed(a)
  {
  }

  lemma {:induction false} ReversedThree<L>(start: Token<L>, a: seq<Token<L>>, end: Token<L>)
    ensures Reversed([start] + a + [end]) == [end] + Reversed(a) + [start]
  {
  }

  lemma {:induction false} StackedIsReversed<L>(f: Forest<L>)
    ensures Stacked(f) == Reversed(Lin(f))
    decreases f, 1
  {
    match f
    case Nil =>
    case Cons(b, rest) =>
      StackedIsReversed(rest);
      BlockIsReversed(b);
      ReversedJoin(LinBlock(b), Lin(rest));
  }

  lemma {:induction false} BlockIsReversed<L>(b: Block<L>)
    ensures StackedBlock(b) == Reversed(LinBlock(b))
    decreases b, 0
  {
    match b
    case Leaf(_) =>
    case Text(_) =>
    case Quote(f) =>
      StackedIsReversed(f);
      ReversedThree(QuoteStart, Lin(f), QuoteEnd);
    case List(o, f) =>
      StackedIsReversed(f);
      ReversedThree(ListStart(o), Lin(f), ListEnd);
    case Item(l, f) =>
      StackedIsReversed(f);
      ReversedThree(ItemStart(l), Lin(f), ItemEnd);
  }

  /** Below a forest on the stack there is nothing, or the end of the block around it. */
  predicate Base<L>(base: seq<Token<L>>) { base == [] || Ending(base[|base| - 1]) }

  /** The first token of a block, which lies on top, and what is then left of the block. */
  function FirstToken<L>(b: Block<L>): Token<L> {
    match b
    case Leaf(l) => LeafToken(l)
    case Text(s) => TextToken(s)
    case Quote(_) => QuoteStart
    case List(o, _) => ListStart(o)
    case Item(l, _) => ItemStart(l)
  }

  function Inside<L>(b: Block<L>): seq<Token<L>> {
    match b
    case Leaf(_) => []
    case Text(_) => []
    case Quote(f) => [QuoteEnd] + Stacked(f)
    case List(_, f) => [ListEnd] + Stacked(f)
    case Item(_, f) => [ItemEnd] + Stacked(f)
  }

  lemma {:induction false} BlockOnStack<L>(b: Block<L>)
    ensures StackedBlock(b) == Inside(b) + [FirstToken(b)] && !Ending(FirstToken(b))
  {
  }

  lemma {:induction false} TopOfStack<L>(base: seq<Token<L>>, f: Forest<L>)
    requires Base(base)
    ensures var s := base + Stacked(f);
      && (f.Nil? ==> s == base)
      && (f.Cons? ==>
            |s| > 0 && s[|s| - 1] == FirstToken(f.head) && s[..|s| - 1] == (base + Stacked(f.tail)) + Inside(f.head)
            && !Ending(s[|s| - 1]))
  {
    hide FirstToken, Inside, Ending, StackedBlock;
    if f.Cons? {
      var s := base + Stacked(f);
      BlockOnStack(f.head);
      assert s == ((base + Stacked(f.tail)) + Inside(f.head)) + [FirstToken(f.head)];
    }
  }

  /** What rendering the first block of a forest, with the texts that follow a text, adds to the output. */
  function FirstOutput<L>(r: Renderer<L>, f: Forest<L>, tight: bool): string
    requires f.Cons?
  {
    if f.head.Text? then
      if tight then r.inline(RunText(f.head.text, f.tail)) else r.paragraph(r.inline(RunText(f.head.text, f.tail)))
    else RenderBlock(r, f.head)
  }

  function AfterFirst<L>(f: Forest<L>): (g: Forest<L>)
    requires f.Cons?
  {
    if f.head.Text? then AfterRun(f.tail) else f.tail
  }

  lemma {:induction false} RenderStep<L>(r: Renderer<L>, f: Forest<L>, tight: bool, body: string)
    requires f.Cons?
    ensures body + Render(r, f, tight) == (body + FirstOutput(r, f, tight)) + Render(r, AfterFirst(f), tight)
  {
  }

  class Parser<L(0)> {
    const renderer: Renderer<L>
    var tokens: seq<Token<L>>
    var token: Token<L>

    constructor (renderer: Renderer<L>, first: Token<L>)
      ensures this.renderer == renderer && tokens == []
    {
      this.renderer := renderer;
      tokens, token := [], first;
    }

    /** Pops the next token; `ok` is false at the end. */
    method Next() returns (ok: bool)
      modifies this
      ensures ok == (|old(tokens)| > 0)
      ensures if ok then tokens == old(tokens)[..|old(tokens)| - 1] && token == old(tokens)[|old(tokens)| - 1]
              else tokens == old(tokens) && token == old(token)
    {
      ok := |tokens| > 0;
      if ok {
        token := tokens[|tokens| - 1];
        tokens := tokens[..|tokens| - 1];
      }
    }

    /** The text of this token and of the text tokens after it. */
    method ParseText(ghost base: seq<Token<L>>, ghost rest: Forest<L>) returns (out: string)
      requires token.TextToken? && Base(base) && tokens == base + Stacked(rest)
      modifies this
      ensures tokens == base + Stacked(AfterRun(rest)) && |tokens| <= |old(tokens)|
      ensures out == renderer.inline(RunText(old(token).text, rest))
    {
      var body := token.text;
      ghost var f := rest;
      TopOfStack(base, f);
      while |tokens| > 0 && tokens[|tokens| - 1].TextToken?
        invariant tokens == base + Stacked(f) && |tokens| <= |old(tokens)|
        invariant RunText(body, f) == RunText(old(token).text, rest) && AfterRun(f) == AfterRun(rest)
        decreases |tokens|
      {
        TopOfStack(base, f);
        NotText(base, f);
        var ok := Next();
        body := body + "\n" + token.text;
        f := f.tail;
      }
      TopOfStack(base, f);
      out := renderer.inline(body);
    }

    /** Renders the block whose first token has just been taken, with the texts that follow a text. */
    method Tok(ghost base: seq<Token<L>>, ghost f: Forest<L>) returns (out: string)
      requires f.Cons? && token == FirstToken(f.head) && Base(base)
      requires tokens == (base + Stacked(f.tail)) + Inside(f.head)
      modifies this
      ensures tokens == base + Stacked(AfterFirst(f)) && |tokens| <= |old(tokens)|
      ensures out == FirstOutput(renderer, f, false)
      ensures !f.head.Text? ==> out == Output(renderer, None, LinBlock(f.head))
      decreases |tokens|, 1
    {
      hide Render, Stacked, Output;
      ghost var below := base + Stacked(f.tail);
      if !f.head.Text? {
        OutputOfBlock(renderer, f.head);
      }
      match token {
        case LeafToken(leaf) =>
          assert tokens == below;
          out := renderer.block(leaf);
        case TextToken(_) =>
          assert tokens == below;
          out := ParseText(base, f.tail);
          out := renderer.paragraph(out);
        case QuoteStart =>
          assert tokens == (below + [QuoteEnd]) + Stacked(f.head.inner);
          var body := Body(QuoteEnd, false, below, f.head.inner);
          out := renderer.quote(body);
        case ListStart(ordered) =>
          assert tokens == (below + [ListEnd]) + Stacked(f.head.items);
          var body := Body(ListEnd, false, below, f.head.items);
          out := renderer.list(body, ordered);
        case ItemStart(loose) =>
          assert tokens == (below + [ItemEnd]) + Stacked(f.head.inner);
          var body := Body(ItemEnd, !loose, below, f.head.inner);
          out := renderer.item(body);
      }
    }

    /** Renders the contents of a block, up to and including its last token. */
    method Body(end: Token<L>, tight: bool, ghost base: seq<Token<L>>, ghost inner: Forest<L>) returns (out: string)
      requires Ending(end) && tokens == (base + [end]) + Stacked(inner)
      modifies this
      ensures tokens == base && |tokens| <= |old(tokens)|
      ensures out == Render(renderer, inner, tight)
      decreases |tokens|, 0
    {
      hide Stacked, Inside, Render, RunText, AfterRun, RenderBlock;
      out := "";
      ghost var f := inner;
      ghost var below := base + [end];
      RenderNil(renderer, tight);
      while true
        invariant tokens == below + Stacked(f) && |tokens| <= |old(tokens)|
        invariant out + Render(renderer, f, tight) == Render(renderer, inner, tight)
        decreases |tokens|
      {
        TopOfStack(below, f);
        var ok := Next();
        assert ok;
        if IsEnd(token, end) {
          assert f.Nil? && below[..|base|] == base;
          return;
        }
        RenderStep(renderer, f, tight, out);
        var piece;
        if tight && token.TextToken? {
          TextInside(f.head, below + Stacked(f.tail));
          piece := ParseText(below, f.tail);
        } else {
          piece := Tok(below, f);
        }
        out := out + piece;
        f := AfterFirst(f);
      }
    }

    /** Renders a token list. */
    method Parse(src: seq<Token<L>>, ghost f: Forest<L>) returns (out: string)
      requires src == Lin(f)
      modifies this
      ensures tokens == [] && out == Render(renderer, f, false) && out == Output(renderer, None, src)
    {
      hide Stacked, Inside, FirstToken, FirstOutput, Ending, Lin, Output, Render, RunText, AfterRun;
      OutputOfTree(renderer, None, f);
      RenderNil(renderer, false);
      tokens := Reversed(src);
      StackedIsReversed(f);
      out := "";
      ghost var g := f;
      assert [] + Stacked(g) == tokens;
      TopOfStack([], g);
      var more := Next();
      while more
        invariant more ==> g.Cons? && token == FirstToken(g.head) && tokens == ([] + Stacked(g.tail)) + Inside(g.head)
        invariant !more ==> g == Nil && tokens == []
        invariant out + Render(renderer, g, false) == Render(renderer, f, false)
        decreases |tokens| + if more then 1 else 0
      {
        RenderStep(renderer, g, false, out);
        var piece := Tok([], g);
        out := out + piece;
        g := AfterFirst(g);
        TopOfStack([], g);
        more := Next();
      }
    }
  }

  predicate IsEnd<L>(t: Token<L>, end: Token<L>) {
    (t.QuoteEnd? && end.QuoteEnd?) || (t.ListEnd? && end.ListEnd?) || (t.ItemEnd? && end.ItemEnd?)
  }

  lemma {:induction false} RenderNil<L>(r: Renderer<L>, tight: bool)
    ensures Render(r, Nil, tight) == "" && forall s: string :: "" + s == s
  {
  }

  lemma {:induction false} TextInside<L>(b: Block<L>, s: seq<Token<L>>)
    requires FirstToken(b).TextToken?
    ensures s + Inside(b) == s
  {
  }

  lemma {:induction false} NotText<L>(base: seq<Token<L>>, f: Forest<L>)
    requires Base(base) && var s := base + Stacked(f); |s| > 0 && s[|s| - 1].TextToken?
    ensures f.Cons? && f.head.Text?
  {
    TopOfStack(base, f);
  }

  /** Lexes a source and renders its tokens: the output is that of the source's blocks. */
  method RenderSource<L(0)>(grammar: Grammar<L>, renderer: Renderer<L>, source: string, first: Token<L>)
    returns (threw: bool, out: string)
    requires grammar.Valid()
    ensures var blocks := Blocks(grammar, grammar.trim(source), true, false);
      && threw == blocks.None?
      && (blocks.Some? ==>
        out == Render(renderer, blocks.value, false) && out == Output(renderer, None, Lin(blocks.value)))
  {
    var lexer := new Lexer(grammar);
    threw := lexer.Lex(source, true, false);
    if threw {
      return true, "";
    }
    var parser := new Parser(renderer, first);
    out := parser.Parse(lexer.tokens, Blocks(grammar, grammar.trim(source), true, false).value);
  }
}

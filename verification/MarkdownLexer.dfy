/** The block lexer, for any rules that consume some of the source. */
module MarkdownLexer {
  import opened Wrappers
  import opened MarkdownBlocks

  datatype ItemSource = ItemSource(loose: bool, text: string)

  /** What the first rule that matches at the start of a source does: each leaves a `rest` of the source. A blank line
      leaves a space token or nothing, and a definition nothing. Without a match the code throws. */
  datatype Choice<L> =
    | Nothing(rest: string)
    | Emit(leaf: L, rest: string)
    | EmitText(text: string, rest: string)
    | EmitQuote(inner: string, rest: string)
    | EmitList(ordered: bool, items: seq<ItemSource>, rest: string)
    | NoMatch

  /** The rules depend on whether the source is at the top level and whether it is inside a quote; `trim` blanks out
      lines of spaces. */
  datatype Grammar<!L> = Grammar(choose: (string, bool, bool) -> Choice<L>, trim: string -> string)
  {
    /** Rules consume some of the source, and what they take out of it is shorter than what they matched. */
    ghost predicate Valid() {
      && (forall s: string :: |trim(s)| <= |s|)
      && (forall s: string, top: bool, quoted: bool :: s != "" ==> Consumes(choose(s, top, quoted), s))
    }
  }

  ghost predicate Consumes<L>(c: Choice<L>, s: string) {
    && (!c.NoMatch? ==> |c.rest| < |s|)
    && (c.EmitQuote? ==> |c.inner| < |s|)
    && (c.EmitList? ==> forall i :: 0 <= i < |c.items| ==> |c.items[i].text| < |s|)
  }

  /** The blocks of a source that is being lexed, if the code does not throw. */
  function Blocks<L>(g: Grammar<L>, s: string, top: bool, quoted: bool): Option<Forest<L>>
    requires g.Valid()
    decreases |s|, 2, 0
  {
    if s == "" then Some(Nil)
    else
      var c := g.choose(s, top, quoted);
      assert Consumes(c, s);
      match c
      case NoMatch => None
      case Nothing(rest) => Blocks(g, rest, top, quoted)
      case _ =>
        match FirstBlock(g, s, c, top, quoted)
        case None => None
        case Some(b) =>
          match Blocks(g, c.rest, top, quoted)
          case None => None
          case Some(f) => Some(Cons(b, f))
  }

  /** The block that a rule emits. */
  function FirstBlock<L>(g: Grammar<L>, ghost s: string, c: Choice<L>, top: bool, quoted: bool): Option<Block<L>>
    requires g.Valid() && !c.NoMatch? && !c.Nothing? && Consumes(c, s)
    decreases |s|, 1, 0
  {
    match c
    case Emit(l, _) => Some(Leaf(l))
    case EmitText(t, _) => Some(Text(t))
    case EmitQuote(inner, _) =>
      (match Blocks(g, g.trim(inner), top, true)
       case None => None
       case Some(f) => Some(Quote(f)))
    case EmitList(o, items, _) =>
      match Items(g, s, items, 0, quoted)
      case None => None
      case Some(f) => Some(List(o, f))
  }

  function Items<L>(g: Grammar<L>, ghost s: string, items: seq<ItemSource>, i: nat, quoted: bool): Option<Forest<L>>
    requires g.Valid() && i <= |items| && forall k :: 0 <= k < |items| ==> |items[k].text| < |s|
    decreases |s|, 0, |items| - i
  {
    if i == |items| then Some(Nil)
    else
      match Blocks(g, g.trim(items[i].text), false, quoted)
      case None => None
      case Some(f) =>
        match Items(g, s, items, i + 1, quoted)
        case None => None
        case Some(rest) => Some(Cons(Item(items[i].loose, f), rest))
  }

  class Lexer<L(0)> {
    const grammar: Grammar<L>
    var tokens: seq<Token<L>>

    constructor (grammar: Grammar<L>)
      ensures this.grammar == grammar && tokens == []
    {
      this.grammar := grammar;
      tokens := [];
    }

    /** Pushes the tokens of a source; `threw` says that some part of it matched no rule. */
    method Lex(source: string, top: bool, quoted: bool) returns (threw: bool)
      requires grammar.Valid()
      modifies this
      ensures var blocks := Blocks(grammar, grammar.trim(source), top, quoted);
        threw == blocks.None? && (blocks.Some? ==> tokens == old(tokens) + Lin(blocks.value))
      decreases |source|, 2
    {
      var src := grammar.trim(source);
      ghost var done: Forest<L> := Nil;
      while src != ""
        invariant |src| <= |source| && tokens == old(tokens) + Lin(done)
        invariant Extended(done, Blocks(grammar, src, top, quoted))
          == Blocks(grammar, grammar.trim(source), top, quoted)
        decreases |src|
      {
        var c := grammar.choose(src, top, quoted);
        assert Consumes(c, src);
        if c.NoMatch? {
          return true;
        }
        if !c.Nothing? {
          ghost var b := FirstBlock(grammar, src, c, top, quoted);
          threw := PushBlock(src, c, top, quoted);
          if threw {
            return;
          }
          OneMoreBlock(done, b.value, Blocks(grammar, c.rest, top, quoted));
          done := Append(done, Cons(b.value, Nil));
        }
        src := c.rest;
      }
      AppendNil(done);
      return false;
    }

    /** Pushes the tokens of one block. */
    method PushBlock(src: string, c: Choice<L>, top: bool, quoted: bool) returns (threw: bool)
      requires grammar.Valid() && !c.NoMatch? && !c.Nothing? && Consumes(c, src)
      modifies this
      ensures var b := FirstBlock(grammar, src, c, top, quoted);
        threw == b.None? && (b.Some? ==> tokens == old(tokens) + LinBlock(b.value))
      decreases |src|, 1
    {
      hide Blocks, Items, Lin;
      threw := false;
      match c {
        case Emit(l, _) => tokens := tokens + [LeafToken(l)];
        case EmitText(t, _) => tokens := tokens + [TextToken(t)];
        case EmitQuote(inner, _) =>
          tokens := tokens + [QuoteStart];
          threw := Lex(inner, top, true);
          tokens := tokens + [QuoteEnd];
        case EmitList(ordered, items, _) =>
          tokens := tokens + [ListStart(ordered)];
          threw := PushItems(src, items, quoted);
          tokens := tokens + [ListEnd];
      }
    }

    /** Pushes the tokens of the items of a list. */
    method PushItems(ghost src: string, items: seq<ItemSource>, quoted: bool) returns (threw: bool)
      requires grammar.Valid() && forall k :: 0 <= k < |items| ==> |items[k].text| < |src|
      modifies this
      ensures var f := Items(grammar, src, items, 0, quoted);
        threw == f.None? && (f.Some? ==> tokens == old(tokens) + Lin(f.value))
      decreases |src|, 0
    {
      hide Items, Blocks, Lin, LinBlock, Append;
      NoMoreItems(grammar, src, items, quoted);
      LinNil<L>();
      ghost var done: Forest<L> := Nil;
      for i := 0 to |items|
        invariant tokens == old(tokens) + Lin(done)
        invariant Extended(done, Items(grammar, src, items, i, quoted)) == Items(grammar, src, items, 0, quoted)
      {
        ghost var tokens0 := tokens;
        OneMoreItem(grammar, src, items, i, quoted);
        ghost var inner := Blocks(grammar, grammar.trim(items[i].text), false, quoted);
        tokens := tokens + [ItemStart(items[i].loose)];
        threw := Lex(items[i].text, false, quoted);
        if threw {
          return;
        }
        tokens := tokens + [ItemEnd];
        ghost var b := Item(items[i].loose, inner.value);
        OneMoreBlock(done, b, Items(grammar, src, items, i + 1, quoted));
        ItemTokens(items[i].loose, inner.value);
        assert tokens == tokens0 + ([ItemStart(items[i].loose)] + Lin(inner.value) + [ItemEnd]);
        Regroup(old(tokens), Lin(done), LinBlock(b));
        done := Append(done, Cons(b, Nil));
      }
      AppendNil(done);
      return false;
    }
  }

  lemma {:induction false} OneMoreItem<L>(g: Grammar<L>, s: string, items: seq<ItemSource>, i: nat, quoted: bool)
    requires g.Valid() && i < |items| && forall k :: 0 <= k < |items| ==> |items[k].text| < |s|
    ensures var inner, rest := Blocks(g, g.trim(items[i].text), false, quoted), Items(g, s, items, i + 1, quoted);
      Items(g, s, items, i, quoted) ==
        if inner.None? || rest.None? then None else Some(Cons(Item(items[i].loose, inner.value), rest.value))
  {
  }

  lemma {:induction false} NoMoreItems<L>(g: Grammar<L>, s: string, items: seq<ItemSource>, quoted: bool)
    requires g.Valid() && forall k :: 0 <= k < |items| ==> |items[k].text| < |s|
    ensures Items(g, s, items, |items|, quoted) == Some(Nil)
    ensures Extended(Nil, Items(g, s, items, 0, quoted)) == Items(g, s, items, 0, quoted)
  {
  }

  lemma {:induction false} LinNil<L>()
    ensures Lin<L>(Nil) == []
  {
  }

  lemma {:induction false} ItemTokens<L>(loose: bool, f: Forest<L>)
    ensures LinBlock(Item(loose, f)) == [ItemStart(loose)] + Lin(f) + [ItemEnd]
  {
  }

  function Extended<L>(done: Forest<L>, rest: Option<Forest<L>>): Option<Forest<L>> {
    match rest case None => None case Some(f) => Some(Append(done, f))
  }

  lemma {:induction false} OneMoreBlock<L>(done: Forest<L>, b: Block<L>, rest: Option<Forest<L>>)
    ensures Extended(done, if rest.None? then None else Some(Cons(b, rest.value)))
         == Extended(Append(done, Cons(b, Nil)), rest)
    ensures Lin(Append(done, Cons(b, Nil))) == Lin(done) + LinBlock(b)
  {
    if rest.Some? {
      AppendAssociates(done, Cons(b, Nil), rest.value);
    }
    LinAppend(done, Cons(b, Nil));
    assert Lin(Cons(b, Nil)) == LinBlock(b) + Lin(Nil);
  }

  lemma {:induction false} AppendNil<L>(f: Forest<L>)
    ensures Append(f, Nil) == f
  {
    match f
    case Nil =>
    case Cons(_, rest) => AppendNil(rest);
  }
}

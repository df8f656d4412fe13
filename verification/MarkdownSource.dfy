/** Which calls of the lexer's rules the tokens come from. */
module MarkdownSource {
  import opened Wrappers
  import opened MarkdownBlocks
  import opened MarkdownLexer
  import opened MarkdownOutput

  // ---------------------------------------------------------------- what is open around a token

  lemma {:induction false} OpenNext<L>(x: seq<Token<L>>, t: Token<L>)
    ensures OpenStarts(x + [t]) ==
      if t.LeafToken? || t.TextToken? then OpenStarts(x)
      else if !Ending(t) then OpenStarts(x) + [t]
      else if OpenStarts(x) == [] then [] else OpenStarts(x)[..|OpenStarts(x)| - 1]
  {
    assert (x + [t])[..|x|] == x;
  }

  lemma {:induction false} OpenOne<L>(t: Token<L>)
    ensures OpenStarts([t]) == if t.LeafToken? || t.TextToken? || Ending(t) then [] else [t]
  {
    OpenNext([], t);
    assert [] + [t] == [t];
  }

  lemma {:induction false} OpenForest<L>(a: seq<Token<L>>, f: Forest<L>, i: nat)
    requires i <= |Lin(f)|
    ensures OpenStarts(a + Lin(f)[..i]) == OpenStarts(a) + OpenStarts(Lin(f)[..i])
    ensures OpenStarts(a + Lin(f)) == OpenStarts(a)
    decreases f, 1
  {
    hide OpenStarts;
    assert OpenStarts<L>([]) == [] by { OpenNothing<L>(); }
    match f
    case Nil =>
      assert a + Lin(f)[..i] == a && a + Lin(f) == a;
      assert OpenStarts(a) + [] == OpenStarts(a);
    case Cons(b, rest) =>
      var n := |LinBlock(b)|;
      OpenBlock(a, b, if i < n then i else n);
      OpenForest(a + LinBlock(b), rest, if i < n then 0 else i - n);
      assert a + Lin(f) == (a + LinBlock(b)) + Lin(rest);
      if i < n {
        assert Lin(f)[..i] == LinBlock(b)[..i];
      } else {
        OpenBlock([], b, n);
        OpenForest(LinBlock(b), rest, i - n);
        assert [] + LinBlock(b) == LinBlock(b);
        assert Lin(f)[..i] == LinBlock(b) + Lin(rest)[..i - n];
        assert a + Lin(f)[..i] == (a + LinBlock(b)) + Lin(rest)[..i - n];
        assert [] + OpenStarts(Lin(rest)[..i - n]) == OpenStarts(Lin(rest)[..i - n]);
      }
  }

  lemma {:induction false} OpenNothing<L>()
    ensures OpenStarts<L>([]) == []
  {
  }

  lemma {:induction false} OpenBlock<L>(a: seq<Token<L>>, b: Block<L>, i: nat)
    requires i <= |LinBlock(b)|
    ensures OpenStarts(a + LinBlock(b)[..i]) == OpenStarts(a) + OpenStarts(LinBlock(b)[..i])
    ensures OpenStarts(a + LinBlock(b)) == OpenStarts(a)
    decreases b, 0
  {
    hide OpenStarts;
    OpenNothing<L>();
    match b
    case Leaf(l) => OpenSingle(a, LeafToken(l), i);
    case Text(s) => OpenSingle(a, TextToken(s), i);
    case Quote(f) => OpenEnclosed(a, QuoteStart, f, QuoteEnd, i);
    case List(o, f) => OpenEnclosed(a, ListStart(o), f, ListEnd, i);
    case Item(l, f) => OpenEnclosed(a, ItemStart(l), f, ItemEnd, i);
  }

  lemma {:induction false} OpenSingle<L>(a: seq<Token<L>>, t: Token<L>, i: nat)
    requires i <= 1 && (t.LeafToken? || t.TextToken?)
    ensures OpenStarts(a + [t][..i]) == OpenStarts(a) + OpenStarts([t][..i])
    ensures OpenStarts(a + [t]) == OpenStarts(a)
  {
    hide OpenStarts;
    OpenNothing<L>();
    OpenNext(a, t);
    OpenOne(t);
    assert i == 0 ==> [t][..i] == [] && a + [] == a;
    assert i == 1 ==> [t][..i] == [t];
  }

  lemma {:induction false} OpenEnclosed<L>(a: seq<Token<L>>, start: Token<L>, f: Forest<L>, end: Token<L>, i: nat)
    requires !start.LeafToken? && !start.TextToken? && !Ending(start) && Ending(end)
    requires i <= |Lin(f)| + 2
    ensures var x := [start] + Lin(f) + [end];
      && OpenStarts(a + x[..i]) == OpenStarts(a) + OpenStarts(x[..i])
      && OpenStarts(a + x) == OpenStarts(a)
    decreases f, 2
  {
    hide OpenStarts;
    var x := [start] + Lin(f) + [end];
    var n := |Lin(f)|;
    OpenNothing<L>();
    OpenNext(a, start);
    OpenOne(start);
    OpenForest(a + [start], f, n);
    OpenForest([start], f, n);
    OpenNext((a + [start]) + Lin(f), end);
    OpenNext([start] + Lin(f), end);
    assert a + x == ((a + [start]) + Lin(f)) + [end];
    if i == 0 {
      assert x[..0] == [] && a + [] == a;
    } else if i <= n + 1 {
      OpenForest(a + [start], f, i - 1);
      OpenForest([start], f, i - 1);
      assert x[..i] == [start] + Lin(f)[..i - 1];
      assert a + x[..i] == (a + [start]) + Lin(f)[..i - 1];
    } else {
      assert x[..i] == x;
    }
  }

  // ---------------------------------------------------------------- where tokens come from

  ghost predicate InItem<L(!new)>(open: seq<Token<L>>) { ItemStart(true) in open || ItemStart(false) in open }

  /** This choice of a rule makes the lexer push this token. */
  ghost predicate Emits<L>(c: Choice<L>, t: Token<L>) {
    match t
    case LeafToken(l) => c.Emit? && c.leaf == l
    case TextToken(s) => c.EmitText? && c.text == s
    case QuoteStart => c.EmitQuote?
    case ListStart(o) => c.EmitList? && c.ordered == o
    case ItemStart(l) => c.EmitList? && exists k :: 0 <= k < |c.items| && c.items[k].loose == l
    case _ => false
  }

  /** The rules were asked in this state, and made the lexer push this token. */
  ghost predicate Asked<L>(g: Grammar<L>, t: Token<L>, top: bool, quoted: bool) {
    exists src: string :: src != "" && Emits(g.choose(src, top, quoted), t)
  }

  ghost predicate AllAsked<L(!new)>(g: Grammar<L>, x: seq<Token<L>>, top: bool, quoted: bool) {
    forall i {:trigger x[i]} :: 0 <= i < |x| && !Ending(x[i]) ==>
      var open := OpenStarts(x[..i]);
      Asked(g, x[i], top && !InItem(open), quoted || QuoteStart in open)
  }

  lemma {:induction false} AskedJoin<L(!new)>(g: Grammar<L>, b: Block<L>, f: Forest<L>, top: bool, quoted: bool)
    requires AllAsked(g, LinBlock(b), top, quoted) && AllAsked(g, Lin(f), top, quoted)
    ensures AllAsked(g, LinBlock(b) + Lin(f), top, quoted)
  {
    hide OpenStarts, InItem, Asked, Lin, LinBlock;
    var x, n := LinBlock(b) + Lin(f), |LinBlock(b)|;
    forall i | 0 <= i < |x| && !Ending(x[i])
      ensures var open := OpenStarts(x[..i]); Asked(g, x[i], top && !InItem(open), quoted || QuoteStart in open)
    {
      if i < n {
        FirstContext(LinBlock(b), Lin(f), i);
        assert !Ending(LinBlock(b)[i]);
      } else {
        RestContext(b, f, i - n);
        assert !Ending(Lin(f)[i - n]);
      }
    }
  }

  lemma {:induction false} FirstContext<L>(a: seq<Token<L>>, b: seq<Token<L>>, i: nat)
    requires i < |a|
    ensures (a + b)[..i] == a[..i] && (a + b)[i] == a[i]
  {
  }

  /** Behind a block, the same is open as without it. */
  lemma {:induction false} RestContext<L>(b: Block<L>, f: Forest<L>, i: nat)
    requires i < |Lin(f)|
    ensures var n, x := |LinBlock(b)|, LinBlock(b) + Lin(f);
      x[n + i] == Lin(f)[i] && OpenStarts(x[..n + i]) == OpenStarts(Lin(f)[..i])
  {
    hide OpenStarts, Lin, LinBlock;
    var a, n := LinBlock(b), |LinBlock(b)|;
    OpenNothing<L>();
    OpenBlock([], b, n);
    assert [] + a == a;
    OpenForest(a, f, i);
    assert (a + Lin(f))[..n + i] == a + Lin(f)[..i];
    assert [] + OpenStarts(Lin(f)[..i]) == OpenStarts(Lin(f)[..i]);
  }

  lemma {:induction false} AskedInside<L(!new)>(g: Grammar<L>, start: Token<L>, f: Forest<L>, end: Token<L>, top: bool,
      quoted: bool)
    requires Matching(start, end) && Asked(g, start, top, quoted)
    requires AllAsked(g, Lin(f), top && !start.ItemStart?, quoted || start.QuoteStart?)
    ensures AllAsked(g, [start] + Lin(f) + [end], top, quoted)
  {
    hide OpenStarts, Asked;
    var x, n := [start] + Lin(f) + [end], |Lin(f)|;
    OpenOne(start);
    OpenNothing<L>();
    forall i | 0 <= i < |x| && !Ending(x[i])
      ensures var open := OpenStarts(x[..i]); Asked(g, x[i], top && !InItem(open), quoted || QuoteStart in open)
    {
      if i == 0 {
        assert x[..0] == [];
      } else {
        assert x[n + 1] == end;
        OpenForest([start], f, i - 1);
        assert x[..i] == [start] + Lin(f)[..i - 1] && x[i] == Lin(f)[i - 1];
      }
    }
  }

  /** Every token comes from a rule that was asked as it should be: as at the top level exactly if no item is open
      around the token, and as in a quote exactly if a quote is. */
  lemma {:induction false} TokensAreAsked<L(!new)>(g: Grammar<L>, s: string, top: bool, quoted: bool)
    requires g.Valid() && Blocks(g, s, top, quoted).Some?
    ensures AllAsked(g, Lin(Blocks(g, s, top, quoted).value), top, quoted)
    decreases |s|, 2, 0
  {
    hide AllAsked, Items, FirstBlock;
    if s == "" {
      NoneAsked(g, top, quoted);
    } else {
      var c := g.choose(s, top, quoted);
      assert Consumes(c, s);
      TokensAreAsked(g, c.rest, top, quoted);
      if !c.Nothing? {
        BlockIsAsked(g, s, c, top, quoted);
        AskedJoin(g, FirstBlock(g, s, c, top, quoted).value, Blocks(g, c.rest, top, quoted).value, top, quoted);
      }
    }
  }

  lemma {:induction false} NoneAsked<L(!new)>(g: Grammar<L>, top: bool, quoted: bool)
    ensures AllAsked(g, Lin<L>(Nil), top, quoted)
  {
  }

  lemma {:induction false} SingleAsked<L(!new)>(g: Grammar<L>, t: Token<L>, top: bool, quoted: bool)
    requires Asked(g, t, top, quoted)
    ensures AllAsked(g, [t], top, quoted)
  {
    hide Asked;
    assert [t][..0] == [];
    OpenNothing<L>();
  }

  lemma {:induction false} BlockIsAsked<L(!new)>(g: Grammar<L>, s: string, c: Choice<L>, top: bool, quoted: bool)
    requires g.Valid() && s != "" && c == g.choose(s, top, quoted) && !c.NoMatch? && !c.Nothing? && Consumes(c, s)
    requires FirstBlock(g, s, c, top, quoted).Some?
    ensures AllAsked(g, LinBlock(FirstBlock(g, s, c, top, quoted).value), top, quoted)
    decreases |s|, 1, 0
  {
    hide AllAsked, Items, Blocks;
    match c
    case Emit(l, _) => SingleAsked(g, LeafToken(l), top, quoted);
    case EmitText(t, _) => SingleAsked(g, TextToken(t), top, quoted);
    case EmitQuote(inner, _) =>
      TokensAreAsked(g, g.trim(inner), top, true);
      AskedInside(g, QuoteStart, Blocks(g, g.trim(inner), top, true).value, QuoteEnd, top, quoted);
    case EmitList(o, items, _) =>
      ItemsAreAsked(g, s, items, 0, top, quoted);
      AskedInside(g, ListStart(o), Items(g, s, items, 0, quoted).value, ListEnd, top, quoted);
  }

  lemma {:induction false} ItemsAreAsked<L(!new)>(g: Grammar<L>, s: string, items: seq<ItemSource>, i: nat, top: bool,
      quoted: bool)
    requires g.Valid() && s != "" && i <= |items| && forall k :: 0 <= k < |items| ==> |items[k].text| < |s|
    requires g.choose(s, top, quoted).EmitList? && g.choose(s, top, quoted).items == items
    requires Items(g, s, items, i, quoted).Some?
    ensures AllAsked(g, Lin(Items(g, s, items, i, quoted).value), top, quoted)
    decreases |s|, 0, |items| - i
  {
    hide AllAsked, Blocks;
    if i == |items| {
      NoneAsked(g, top, quoted);
    } else {
      var f := Blocks(g, g.trim(items[i].text), false, quoted).value;
      TokensAreAsked(g, g.trim(items[i].text), false, quoted);
      assert Asked(g, ItemStart(items[i].loose), top, quoted);
      AskedInside(g, ItemStart(items[i].loose), f, ItemEnd, top, quoted);
      ItemsAreAsked(g, s, items, i + 1, top, quoted);
      AskedJoin(g, Item(items[i].loose, f), Items(g, s, items, i + 1, quoted).value, top, quoted);
    }
  }

  // ---------------------------------------------------------------- all that the rules make it push, and in order

  /** The tokens of a source, or those of the parts that could be lexed. */
  function Tokens<L>(g: Grammar<L>, s: string, top: bool, quoted: bool): seq<Token<L>>
    requires g.Valid()
  {
    match Blocks(g, s, top, quoted) case None => [] case Some(f) => Lin(f)
  }

  function ItemsTokens<L>(g: Grammar<L>, items: seq<ItemSource>, quoted: bool): seq<Token<L>>
    requires g.Valid()
  {
    if items == [] then []
    else
      ([ItemStart(items[0].loose)] + Tokens(g, g.trim(items[0].text), false, quoted) + [ItemEnd])
      + ItemsTokens(g, items[1..], quoted)
  }

  /** What the rule that matches first makes the lexer push, in front of what the rest of the source does. */
  lemma {:induction false} PushedInOrder<L>(g: Grammar<L>, s: string, top: bool, quoted: bool)
    requires g.Valid() && s != "" && Blocks(g, s, top, quoted).Some?
    ensures var c, x := g.choose(s, top, quoted), Tokens(g, s, top, quoted);
      && !c.NoMatch? && Blocks(g, c.rest, top, quoted).Some?
      && var rest := Tokens(g, c.rest, top, quoted);
      match c
      case Nothing(_) => x == rest
      case Emit(l, _) => x == [LeafToken(l)] + rest
      case EmitText(t, _) => x == [TextToken(t)] + rest
      case EmitQuote(inner, _) =>
        Blocks(g, g.trim(inner), top, true).Some? &&
        x == [QuoteStart] + Tokens(g, g.trim(inner), top, true) + [QuoteEnd] + rest
      case EmitList(o, items, _) =>
        x == [ListStart(o)] + ItemsTokens(g, items, quoted) + [ListEnd] + rest
      case _ => false
  {
    hide Items, ItemsTokens;
    var c := g.choose(s, top, quoted);
    assert Consumes(c, s);
    if !c.Nothing? {
      var b := FirstBlock(g, s, c, top, quoted).value;
      assert Tokens(g, s, top, quoted) == LinBlock(b) + Tokens(g, c.rest, top, quoted);
      match c
      case Emit(l, _) => assert LinBlock(b) == [LeafToken(l)];
      case EmitText(t, _) => assert LinBlock(b) == [TextToken(t)];
      case EmitQuote(inner, _) =>
        assert LinBlock(b) == [QuoteStart] + Tokens(g, g.trim(inner), top, true) + [QuoteEnd];
      case EmitList(o, items, _) =>
        ItemsInOrder(g, s, items, 0, quoted);
        assert items[0..] == items;
        assert LinBlock(b) == [ListStart(o)] + ItemsTokens(g, items, quoted) + [ListEnd];
    }
  }

  lemma {:induction false} ItemsInOrder<L>(g: Grammar<L>, s: string, items: seq<ItemSource>, i: nat, quoted: bool)
    requires g.Valid() && i <= |items| && forall k :: 0 <= k < |items| ==> |items[k].text| < |s|
    requires Items(g, s, items, i, quoted).Some?
    ensures Lin(Items(g, s, items, i, quoted).value) == ItemsTokens(g, items[i..], quoted)
    decreases |items| - i
  {
    hide Blocks;
    if i < |items| {
      ItemsInOrder(g, s, items, i + 1, quoted);
      ItemTokens(items[i].loose, Blocks(g, g.trim(items[i].text), false, quoted).value);
      assert items[i..][1..] == items[i + 1..];
    }
  }
}

/** Coding each line of two texts as one unit. */
module TextLines {
  import opened TextEdits

  const NEWLINE: Unit := 10

  /** `String.fromCharCode` keeps 16 bits. */
  function FromCharCode(k: nat): Unit { k % 0x10000 }

  function LineOf(c: Unit, lines: seq<Text>): Text { if c < |lines| then lines[c] else [] }

  function Decode(chars: Text, lines: seq<Text>): Text {
    if chars == [] then [] else Decode(chars[..|chars| - 1], lines) + LineOf(chars[|chars| - 1], lines)
  }

  lemma {:induction false} DecodeJoin(a: Text, b: Text, lines: seq<Text>)
    ensures Decode(a + b, lines) == Decode(a, lines) + Decode(b, lines)
    decreases |b|
  {
    hide LineOf;
    var c := a + b;
    if b == [] {
      assert c == a;
    } else {
      var n := |b| - 1;
      DecodeJoin(a, b[..n], lines);
      assert c[..|c| - 1] == a + b[..n] && c[|c| - 1] == b[n];
      Regroup(Decode(a, lines), Decode(b[..n], lines), LineOf(b[n], lines));
    }
  }

  /** The texts of all edits decoded. */
  function DecodeEdits(t: seq<Edit>, lines: seq<Text>): (r: seq<Edit>)
    ensures |r| == |t|
  {
    seq(|t|, k requires 0 <= k < |t| => Edit(t[k].op, Decode(t[k].text, lines)))
  }

  lemma {:induction false} DecodeSide(t: seq<Edit>, lines: seq<Text>, skip: Op)
    ensures Side(DecodeEdits(t, lines), skip) == Decode(Side(t, skip), lines)
  {
    if t != [] {
      var n := |t| - 1;
      DecodeSide(t[..n], lines, skip);
      assert DecodeEdits(t, lines)[..n] == DecodeEdits(t[..n], lines);
      DecodeJoin(Side(t[..n], skip), Part(t[n], skip), lines);
    }
  }

  // ---------------------------------------------------------------- the line table

  /** The letters of `hasOwnProperty`. The table is an object that is asked by this method for the lines it has; as a
      line, the name hides the method. */
  function HasOwn(): Text { [104, 97, 115, 79, 119, 110, 80, 114, 111, 112, 101, 114, 116, 121] }

  /** The letters of `__proto__`, under which an object cannot keep a number. */
  function Proto(): Text { [95, 95, 112, 114, 111, 116, 111, 95, 95] }

  /** The lines in the order of their first occurrence, after an unused entry, and the place of each. Of the lines,
      `lost` have a name that the table does not keep. */
  ghost predicate Table(lines: seq<Text>, index: map<Text, nat>, lost: nat) {
    && |lines| > 0 && lines[0] == [] && |index| + lost == |lines| - 1 && Proto() !in index
    && (forall k :: 0 < k < |lines| ==> lines[k] != [])
    && (forall k :: 0 < k < |lines| && lines[k] != Proto() ==> lines[k] in index && index[lines[k]] == k)
    && (forall l :: l in index ==> 0 < index[l] < |lines| && lines[index[l]] == l)
  }

  /** The lines at the given places, one after the other. */
  function Joined(places: seq<nat>, lines: seq<Text>): Text
    requires forall k :: 0 <= k < |places| ==> places[k] < |lines|
  {
    if places == [] then [] else Joined(places[..|places| - 1], lines) + lines[places[|places| - 1]]
  }

  lemma {:induction false} JoinedGrows(places: seq<nat>, lines: seq<Text>, lines': seq<Text>)
    requires forall k :: 0 <= k < |places| ==> places[k] < |lines|
    requires lines <= lines'
    ensures Joined(places, lines') == Joined(places, lines)
  {
    if places != [] {
      JoinedGrows(places[..|places| - 1], lines, lines');
    }
  }

  /** `chars` codes `text` by the places of its lines, cut to 16 bits. */
  ghost predicate Codes(chars: Text, text: Text, places: seq<nat>, lines: seq<Text>) {
    && |chars| == |places|
    && (forall k :: 0 <= k < |places| ==> 0 < places[k] < |lines| && chars[k] == FromCharCode(places[k]))
    && Joined(places, lines) == text
  }

  lemma {:induction false} CodesGrow(chars: Text, text: Text, places: seq<nat>, lines: seq<Text>, lines': seq<Text>)
    requires Codes(chars, text, places, lines) && lines <= lines'
    ensures Codes(chars, text, places, lines')
  {
    JoinedGrows(places, lines, lines');
  }

  // ---------------------------------------------------------------- lines

  /** A line goes from the start or a newline up to and with the next newline, or to the end. */
  ghost predicate LineAt(text: Text, i: int, j: int) {
    && 0 <= i < j <= |text| && (i == 0 || text[i - 1] == NEWLINE) && (j == |text| || text[j - 1] == NEWLINE)
    && forall k :: i <= k < j - 1 ==> text[k] != NEWLINE
  }

  /** The distinct lines of a text. */
  ghost function Lines(text: Text): set<Text> {
    set i, j | 0 <= i < j <= |text| && LineAt(text, i, j) :: text[i..j]
  }

  /** Those with a newline before and after them: they are lines of any larger text, too. */
  ghost function InnerLines(text: Text): set<Text> {
    set i, j | 0 < i < j <= |text| && LineAt(text, i, j) && text[j - 1] == NEWLINE :: text[i..j]
  }

  lemma {:induction false} InnerOfPart(a: Text, t: Text, b: Text)
    ensures InnerLines(t) <= InnerLines(a + t + b)
  {
    var whole := a + t + b;
    forall l | l in InnerLines(t)
      ensures l in InnerLines(whole)
    {
      var i, j :| 0 < i < j <= |t| && LineAt(t, i, j) && t[j - 1] == NEWLINE && l == t[i..j];
      assert forall k :: 0 <= k < |t| ==> whole[|a| + k] == t[k];
      assert forall k :: |a| + i <= k < |a| + j - 1 ==> whole[k] == t[k - |a|];
      assert LineAt(whole, |a| + i, |a| + j);
      assert whole[|a| + i..|a| + j] == l;
    }
  }

  lemma {:induction false} SmallerSet<T>(a: set<T>, b: set<T>)
    requires a <= b
    ensures |a| <= |b|
  {
    if a != {} {
      var x :| x in a;
      SmallerSet(a - {x}, b - {x});
    }
  }

  lemma {:induction false} LineStarts(text: Text, i: int, j: int, j': int)
    requires LineAt(text, i, j) && LineAt(text, i, j')
    ensures j == j'
  {
  }

  lemma {:induction false} LineEnds(text: Text, i: int, i': int, j: int)
    requires LineAt(text, i, j) && LineAt(text, i', j)
    ensures i == i'
  {
  }

  /** What the loop has seen when it is at `start`: the lines that end there or before. */
  ghost function LinesUpTo(text: Text, start: int): set<Text> {
    set i, j | 0 <= i < j <= |text| && j <= start && LineAt(text, i, j) :: text[i..j]
  }

  lemma {:induction false} OneMoreLine(text: Text, start: int, end: int)
    requires LineAt(text, start, end)
    ensures LinesUpTo(text, end) == LinesUpTo(text, start) + {text[start..end]}
  {
    forall l | l in LinesUpTo(text, end)
      ensures l in LinesUpTo(text, start) + {text[start..end]}
    {
      var i, j :| 0 <= i < j <= |text| && j <= end && LineAt(text, i, j) && l == text[i..j];
      SameLine(text, start, end, i, j);
    }
    forall l | l in LinesUpTo(text, start) + {text[start..end]}
      ensures l in LinesUpTo(text, end)
    {
    }
  }

  lemma {:induction false} NoBreakInside(text: Text, i: int, j: int, k: int)
    requires LineAt(text, i, j) && i <= k < j - 1
    ensures text[k] != NEWLINE
  {
  }

  lemma {:induction false} SameLine(text: Text, start: int, end: int, i: int, j: int)
    requires LineAt(text, start, end) && LineAt(text, i, j) && j <= end
    ensures j <= start || (i == start && j == end)
  {
    if j > start {
      if i < start {
        NoBreakInside(text, i, j, start - 1);
      } else if i > start {
        NoBreakInside(text, start, end, i - 1);
      } else {
        LineStarts(text, start, j, end);
      }
    }
  }

  /** The end of the line that starts at `from`. */
  method LineEnd(text: Text, from: nat) returns (end: nat)
    requires from < |text| && (from == 0 || text[from - 1] == NEWLINE)
    ensures LineAt(text, from, end)
  {
    end := from;
    while end < |text| - 1 && text[end] != NEWLINE
      invariant from <= end < |text| && forall k :: from <= k < end ==> text[k] != NEWLINE
    {
      end := end + 1;
    }
    end := end + 1;
  }

  lemma {:induction false} CodesSnoc(chars: Text, text: Text, places: seq<nat>, lines: seq<Text>, place: nat,
                                     line: Text)
    requires Codes(chars, text, places, lines) && 0 < place < |lines| && lines[place] == line
    ensures Codes(chars + [FromCharCode(place)], text + line, places + [place], lines)
  {
    assert (places + [place])[..|places|] == places;
  }

  /** The places that some line of one of the texts has. */
  ghost predicate AllUsed(lines: seq<Text>, old': seq<nat>, new': seq<nat>) {
    forall k: nat :: 0 < k < |lines| ==> k in old' || k in new'
  }

  /** Whether the table does not keep one of these lines, and those that it keeps. */
  ghost function Lost(ls: set<Text>): nat { if Proto() in ls then 1 else 0 }

  ghost function Kept(ls: set<Text>): set<Text> { ls - {Proto()} }

  lemma {:induction false} OneLine(line: Text)
    ensures Lost({line}) == if line == Proto() then 1 else 0
    ensures Kept({line}) == if line == Proto() then {} else {line}
  {
    hide Proto;
  }

  lemma {:induction false} TableKeepsLine(line: Text, lines: seq<Text>, index: map<Text, nat>, lost: nat)
    requires Table(lines, index, lost) && line != [] && line !in index && line != Proto()
    ensures var index' := index[line := |lines|];
      Table(lines + [line], index', lost) && index'.Keys == index.Keys + {line}
  {
    hide Proto;
    var lines', index' := lines + [line], index[line := |lines|];
    assert index'.Keys == index.Keys + {line};
    assert |index'| == |index'.Keys| && |index| == |index.Keys|;
    forall k | 0 < k < |lines'| && lines'[k] != Proto()
      ensures lines'[k] in index' && index'[lines'[k]] == k
    {
      if k < |lines| {
        assert lines'[k] == lines[k] && lines[k] in index && lines[k] != line;
      }
    }
  }

  lemma {:induction false} TableLosesLine(lines: seq<Text>, index: map<Text, nat>, lost: nat)
    requires Table(lines, index, lost)
    ensures Table(lines + [Proto()], index, lost + 1)
  {
    assert Proto()[0] == 95;
    hide Proto;
    var lines' := lines + [Proto()];
    forall k | 0 < k < |lines'| && lines'[k] != Proto()
      ensures lines'[k] in index && index[lines'[k]] == k
    {
      assert lines'[k] == lines[k];
    }
  }

  /** The place of a line, which is added to the table if it is not there yet. */
  method PlaceOf(line: Text, lines0: seq<Text>, index0: map<Text, nat>, ghost lost: nat)
    returns (place: nat, lines: seq<Text>, index: map<Text, nat>)
    requires Table(lines0, index0, lost) && line != []
    ensures Table(lines, index, lost + Lost({line})) && index.Keys == index0.Keys + Kept({line})
    ensures lines0 <= lines && |lines| <= |lines0| + 1
    ensures 0 < place < |lines| && lines[place] == line
    ensures |lines| == |lines0| || place == |lines0|
  {
    hide Proto, Table, Lost, Kept;
    PlaceIn(line, lines0, index0, lost);
    OneLine(line);
    lines, index := lines0, index0;
    if line in index {
      place := index[line];
    } else {
      place := |lines|;
      if line == Proto() {
        TableLosesLine(lines, index, lost);
      } else {
        TableKeepsLine(line, lines, index, lost);
        index := index[line := place];
      }
      lines := lines + [line];
    }
  }

  lemma {:induction false} PlaceIn(line: Text, lines: seq<Text>, index: map<Text, nat>, lost: nat)
    requires Table(lines, index, lost)
    ensures |lines| > 0 && (line in index ==>
      line != Proto() && 0 < index[line] < |lines| && lines[index[line]] == line)
  {
    hide Proto;
  }

  /** Where the coding of `text` has started from: the table, the lines that its keys are, and the places in use. */
  datatype Before = Before(lines: seq<Text>, keys: set<Text>, lost: nat, used: seq<nat>)

  /** The text is coded up to `start`, where a line starts or the text ends. */
  ghost predicate Coding(text: Text, start: int, chars: Text, lines: seq<Text>, index: map<Text, nat>,
                         places: seq<nat>, b: Before) {
    && 0 <= start <= |text| && (start == 0 || start == |text| || text[start - 1] == NEWLINE)
    && Table(lines, index, b.lost + Lost(LinesUpTo(text, start)))
    && b.lines <= lines && AllUsed(lines, b.used, places)
    && Codes(chars, text[..start], places, lines)
    && index.Keys == b.keys + Kept(LinesUpTo(text, start))
  }

  method EncodeLine(text: Text, start: int, chars0: Text, lines1: seq<Text>, index1: map<Text, nat>,
                    ghost places0: seq<nat>, ghost b: Before)
    returns (end: int, chars: Text, lines: seq<Text>, index: map<Text, nat>, ghost places: seq<nat>)
    requires Coding(text, start, chars0, lines1, index1, places0, b) && start < |text|
    ensures Coding(text, end, chars, lines, index, places, b) && end > start
    ensures end < |text| && HasOwn() !in index1 ==> HasOwn() !in index
  {
    hide Table, Coding, LineAt, HasOwn, Proto, Lost, Kept, LinesUpTo;
    CodingBounds(text, start, chars0, lines1, index1, places0, b);
    end := LineEnd(text, start);
    LineBounds(text, start, end);
    OneLine(text[start..end]);
    ghost var lost := b.lost + Lost(LinesUpTo(text, start));
    var place;
    place, lines, index := PlaceOf(text[start..end], lines1, index1, lost);
    chars := chars0 + [FromCharCode(place)];
    places := places0 + [place];
    LineCoded(text, start, end, chars0, lines1, index1, places0, lines, index, place, b);
  }

  lemma {:induction false} CodingBounds(text: Text, start: int, chars: Text, lines: seq<Text>, index: map<Text, nat>,
                                        places: seq<nat>, b: Before)
    requires Coding(text, start, chars, lines, index, places, b) && start < |text|
    ensures 0 <= start && (start == 0 || text[start - 1] == NEWLINE)
    ensures Table(lines, index, b.lost + Lost(LinesUpTo(text, start)))
  {
    hide Table, Codes, AllUsed, LinesUpTo, Lost, Kept, Proto;
  }

  lemma {:induction false} LineCoded(text: Text, start: int, end: int, chars: Text, lines1: seq<Text>,
                                     index1: map<Text, nat>, places: seq<nat>, lines: seq<Text>,
                                     index: map<Text, nat>, place: nat, b: Before)
    requires Coding(text, start, chars, lines1, index1, places, b)
    requires 0 <= start < end <= |text| && LineAt(text, start, end)
    requires Table(lines, index, b.lost + Lost(LinesUpTo(text, start)) + Lost({text[start..end]}))
    requires lines1 <= lines && |lines| <= |lines1| + 1 && (|lines| == |lines1| || place == |lines1|)
    requires 0 < place < |lines| && lines[place] == text[start..end]
    requires index.Keys == index1.Keys + Kept({text[start..end]})
    ensures Coding(text, end, chars + [FromCharCode(place)], lines, index, places + [place], b)
  {
    hide Table, Codes, AllUsed, LinesUpTo, LineAt, Proto, Lost, Kept;
    LineBounds(text, start, end);
    var line := text[start..end];
    assert text[..end] == text[..start] + line;
    CodesGrow(chars, text[..start], places, lines1, lines);
    CodesSnoc(chars, text[..start], places, lines, place, line);
    UsedSnoc(lines1, lines, b.used, places, place);
    OneMoreLine(text, start, end);
    OneMoreLost(text, start, end);
    assert index.Keys == b.keys + (Kept(LinesUpTo(text, start)) + Kept({line}));
  }

  /** Only the last line of a text can be lost. */
  lemma {:induction false} OneMoreLost(text: Text, start: int, end: int)
    requires LineAt(text, start, end)
    ensures Lost(LinesUpTo(text, end)) == Lost(LinesUpTo(text, start)) + Lost({text[start..end]})
    ensures Kept(LinesUpTo(text, end)) == Kept(LinesUpTo(text, start)) + Kept({text[start..end]})
  {
    hide Proto;
    OneMoreLine(text, start, end);
    LineBounds(text, start, end);
    if Proto() in LinesUpTo(text, start) {
      var i, j :| 0 <= i < j <= start && LineAt(text, i, j) && text[i..j] == Proto();
      LineBounds(text, i, j);
    }
  }

  /** Codes a text line by line; `threw` says that the table could not be asked. */
  method EncodeText(text: Text, lines0: seq<Text>, index0: map<Text, nat>, ghost lost: nat, ghost before: seq<nat>)
    returns (threw: bool, chars: Text, lines: seq<Text>, index: map<Text, nat>, ghost places: seq<nat>)
    requires Table(lines0, index0, lost) && AllUsed(lines0, before, [])
    ensures threw <==> text != [] && HasOwn() in index0
    ensures !threw ==> Table(lines, index, lost + Lost(Lines(text)))
    ensures !threw ==> lines0 <= lines && AllUsed(lines, before, places)
    ensures !threw ==> Codes(chars, text, places, lines) && index.Keys == index0.Keys + Kept(Lines(text))
  {
    hide Coding, HasOwn, Table, AllUsed, Codes, Lines, Proto, Lost, Kept;
    threw, chars, lines, index, places := false, [], lines0, index0, [];
    var start := 0;
    ghost var b := Before(lines0, index0.Keys, lost, before);
    StartCoding(text, index0, b);
    while start < |text|
      invariant 0 <= start && Coding(text, start, chars, lines, index, places, b)
      invariant if HasOwn() in index0 then start == 0 && index == index0
                else start < |text| ==> HasOwn() !in index
      decreases |text| - start
    {
      if HasOwn() in index {
        threw := true;
        return;
      }
      start, chars, lines, index, places := EncodeLine(text, start, chars, lines, index, places, b);
    }
    EndCoding(text, start, chars, lines, index, places, b);
  }

  lemma {:induction false} StartCoding(text: Text, index0: map<Text, nat>, b: Before)
    requires Table(b.lines, index0, b.lost) && AllUsed(b.lines, b.used, []) && b.keys == index0.Keys
    ensures Coding(text, 0, [], b.lines, index0, [], b)
  {
    hide Table, AllUsed, Codes, LinesUpTo, Proto;
    assert text[..0] == [];
    NothingCoded(b.lines);
    NothingSeen(text);
  }

  lemma {:induction false} EndCoding(text: Text, start: int, chars: Text, lines: seq<Text>, index: map<Text, nat>,
                                     places: seq<nat>, b: Before)
    requires Coding(text, start, chars, lines, index, places, b) && start >= |text|
    ensures Table(lines, index, b.lost + Lost(Lines(text))) && b.lines <= lines && AllUsed(lines, b.used, places)
    ensures Codes(chars, text, places, lines) && index.Keys == b.keys + Kept(Lines(text))
  {
    hide Table, AllUsed, Codes, LinesUpTo, Lines, Proto, Lost, Kept;
    assert text[..|text|] == text;
    AllSeen(text);
  }

  lemma {:induction false} LineBounds(text: Text, i: int, j: int)
    requires LineAt(text, i, j)
    ensures 0 <= i < j <= |text| && (j == |text| || text[j - 1] == NEWLINE)
    ensures j < |text| ==> text[i..j] != HasOwn() && text[i..j] != Proto()
  {
    if j < |text| {
      assert text[i..j][j - i - 1] == NEWLINE;
    }
  }

  lemma {:induction false} NothingSeen(text: Text)
    ensures LinesUpTo(text, 0) == {}
  {
  }

  lemma {:induction false} AllSeen(text: Text)
    ensures LinesUpTo(text, |text|) == Lines(text)
  {
  }

  lemma {:induction false} NothingCoded(lines: seq<Text>)
    ensures Codes([], [], [], lines)
  {
    var none: seq<nat> := [];
    assert Joined(none, lines) == [];
  }

  lemma {:induction false} UsedSnoc(lines: seq<Text>, lines': seq<Text>, before: seq<nat>, places: seq<nat>, place: nat)
    requires AllUsed(lines, before, places) && |lines| <= |lines'| <= |lines| + 1
    requires |lines'| == |lines| || place == |lines|
    ensures AllUsed(lines', before, places + [place])
  {
    assert (places + [place])[|places|] == place;
    assert forall k :: k in places ==> k in places + [place];
  }

  /** How many codes the lines of two texts take: a last line `__proto__` takes another one in the second text. */
  ghost function CodeCount(text1: Text, text2: Text): nat {
    |Lines(text1) + Lines(text2)| + if Proto() in Lines(text1) && Proto() in Lines(text2) then 1 else 0
  }

  /** One unit for each line of the two texts, and the lines that the units stand for. The code throws if the first
      text ends in a line that hides the method its table needs. */
  method LinesToChars(text1: Text, text2: Text)
    returns (threw: bool, chars1: Text, chars2: Text, lines: seq<Text>, ghost places1: seq<nat>,
      ghost places2: seq<nat>)
    ensures threw <==> text2 != [] && HasOwn() in Lines(text1)
    ensures !threw ==> Codes(chars1, text1, places1, lines) && Codes(chars2, text2, places2, lines)
    ensures !threw ==> AllUsed(lines, places1, places2) && |lines| == 1 + CodeCount(text1, text2)
    ensures !threw ==> lines[0] == [] && forall k :: 0 < k < |lines| ==> lines[k] != []
    ensures !threw ==> forall k, m :: 0 <= k < m < |lines| && lines[k] == lines[m] ==> lines[k] == Proto()
  {
    hide Lines, Codes, HasOwn, Proto, CodeCount, Lost, Kept, AllUsed, Table;
    var index: map<Text, nat> := map[];
    lines := [[]];
    StartTable();
    threw, chars1, lines, index, places1 := EncodeText(text1, lines, index, 0, []);
    chars2, places2 := [], [];
    assert !threw;
    UsedBefore(lines, places1);
    OwnIsKept(Lines(text1));
    ghost var lines1 := lines;
    threw, chars2, lines, index, places2 := EncodeText(text2, lines, index, Lost(Lines(text1)), places1);
    if !threw {
      CodesGrow(chars1, text1, places1, lines1, lines);
      CountsCodes(text1, text2);
      TableSize(lines, index, Lost(Lines(text1)) + Lost(Lines(text2)));
      assert index.Keys == Kept(Lines(text1)) + Kept(Lines(text2));
    }
  }

  lemma {:induction false} StartTable()
    ensures Table([[]], map[], 0) && AllUsed([[]], [], [])
  {
  }

  lemma {:induction false} UsedBefore(lines: seq<Text>, places: seq<nat>)
    requires AllUsed(lines, [], places)
    ensures AllUsed(lines, places, [])
  {
  }

  lemma {:induction false} TableSize(lines: seq<Text>, index: map<Text, nat>, lost: nat)
    requires Table(lines, index, lost)
    ensures |lines| == 1 + |index.Keys| + lost
    ensures lines[0] == [] && forall k :: 0 < k < |lines| ==> lines[k] != []
    ensures forall k, m :: 0 <= k < m < |lines| && lines[k] == lines[m] ==> lines[k] == Proto()
  {
    hide Proto;
    assert |index| == |index.Keys|;
  }

  lemma {:induction false} OwnIsKept(ls: set<Text>)
    ensures HasOwn() in Kept(ls) <==> HasOwn() in ls
  {
    assert HasOwn()[0] == 104 && Proto()[0] == 95;
  }

  lemma {:induction false} CountsCodes(text1: Text, text2: Text)
    ensures CodeCount(text1, text2)
      == |Kept(Lines(text1)) + Kept(Lines(text2))| + Lost(Lines(text1)) + Lost(Lines(text2))
  {
    hide Lines, Proto;
    assert Kept(Lines(text1)) + Kept(Lines(text2)) == Kept(Lines(text1) + Lines(text2));
    var all := Lines(text1) + Lines(text2);
    if Proto() !in all {
      assert all - {Proto()} == all;
    }
  }

  /** All lines but the first and the last are inner ones, and only the last can be lost. */
  lemma {:induction false} OuterLines(text: Text) returns (first: set<Text>, last: set<Text>)
    ensures |first| <= 1 && |last| <= 1 && Lines(text) <= InnerLines(text) + first + last
    ensures Proto() in Lines(text) ==> last == {Proto()}
  {
    hide Proto;
    first, last := {}, {};
    if j :| LineAt(text, 0, j) {
      first := {text[0..j]};
    }
    if i :| LineAt(text, i, |text|) {
      last := {text[i..]};
    }
    forall l | l in Lines(text)
      ensures l in InnerLines(text) + first + last && (l == Proto() ==> last == {l})
    {
      var i, j :| 0 <= i < j <= |text| && LineAt(text, i, j) && l == text[i..j];
      LineBounds(text, i, j);
      if j == |text| {
        var i' :| LineAt(text, i', |text|) && last == {text[i'..]};
        LineEnds(text, i, i', j);
        assert text[i..|text|] == text[i..];
      } else if i == 0 {
        var j' :| LineAt(text, 0, j') && first == {text[0..j']};
        LineStarts(text, 0, j, j');
      }
    }
  }

  lemma {:induction false} FewLines(text1: Text, text2: Text)
    ensures CodeCount(text1, text2) <= |InnerLines(text1) + InnerLines(text2)| + 4
  {
    hide Lines, InnerLines, Proto;
    var first1, last1 := OuterLines(text1);
    var first2, last2 := OuterLines(text2);
    var inner, first, last := InnerLines(text1) + InnerLines(text2), first1 + first2, last1 + last2;
    SmallerSet(Lines(text1) + Lines(text2), inner + (first + last));
    assert |inner + (first + last)| <= |inner| + |first + last| <= |inner| + |first| + |last|;
    assert |first| <= 2;
    if last1 == last2 {
      assert last == last1;
    }
  }

  // ---------------------------------------------------------------- decoding

  lemma {:induction false} DecodeCodes(chars: Text, text: Text, places: seq<nat>, lines: seq<Text>)
    requires Codes(chars, text, places, lines) && |lines| <= 0x10000
    ensures Decode(chars, lines) == text
  {
    if places != [] {
      var n := |places| - 1;
      assert chars[n] as int == places[n];
      DecodeCodes(chars[..n], Joined(places[..n], lines), places[..n], lines);
      assert Decode(chars, lines) == Decode(chars[..n], lines) + LineOf(chars[n], lines);
    }
  }

  /** Every unit of `chars` stands for the line whose place it codes. */
  ghost predicate Faithful(chars: Text, places: seq<nat>, lines: seq<Text>)
    requires |chars| == |places| && forall k :: 0 <= k < |places| ==> places[k] < |lines|
  {
    forall k :: 0 <= k < |places| ==> LineOf(chars[k], lines) == lines[places[k]]
  }

  /** The lines can be told apart again exactly if they take fewer than 65536 codes: the next one would be coded like
      the unused first entry. */
  lemma {:induction false} FaithfulIffFew(chars1: Text, text1: Text, places1: seq<nat>, chars2: Text, text2: Text,
                                          places2: seq<nat>, lines: seq<Text>)
    requires Codes(chars1, text1, places1, lines) && Codes(chars2, text2, places2, lines)
    requires AllUsed(lines, places1, places2) && |lines| == 1 + CodeCount(text1, text2)
    requires lines[0] == [] && forall k :: 0 < k < |lines| ==> lines[k] != []
    ensures Faithful(chars1, places1, lines) && Faithful(chars2, places2, lines) <==> CodeCount(text1, text2) < 0x10000
  {
    hide Lines, Joined, CodeCount;
    if |lines| > 0x10000 {
      var k: nat := 0x10000;
      assert k in places1 || k in places2;
      assert FromCharCode(k) == 0 && LineOf(0, lines) == lines[0];
    }
  }
}

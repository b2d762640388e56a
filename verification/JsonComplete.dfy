/** Every text of a tree of the grammar is read, and as what the tree means. */
module JsonComplete {
  import opened Basics
  import opened Json
  import opened JsonGrammar
  import opened JsonMeaning

  // ---------------------------------------------------------------- texts inside a string

  /** `text` stands in `s` at `pos`. */
  predicate At(s: string, pos: nat, text: string)
    decreases |text|
  {
    pos <= |s| && (text == "" || (pos < |s| && s[pos] == text[0] && At(s, pos + 1, text[1..])))
  }

  lemma {:induction false} AtSlice(s: string, pos: nat, text: string)
    ensures At(s, pos, text) <==> (pos + |text| <= |s| && s[pos..pos + |text|] == text)
    decreases |text|
  {
    if text != "" {
      AtSlice(s, pos + 1, text[1..]);
      if pos + |text| <= |s| {
        var t := s[pos..pos + |text|];
        assert t[0] == s[pos] && t[1..] == s[pos + 1..pos + |text|];
        assert t == [t[0]] + t[1..] && text == [text[0]] + text[1..];
      }
    }
  }

  lemma AtSplit(s: string, pos: nat, a: string, b: string)
    requires At(s, pos, a + b)
    ensures At(s, pos, a) && At(s, pos + |a|, b)
  {
    AtSlice(s, pos, a + b);
    var t := s[pos..pos + |a| + |b|];
    assert t[..|a|] == a && t[|a|..] == b;
    AtSlice(s, pos, a);
    AtSlice(s, pos + |a|, b);
  }

  lemma AtChar(s: string, pos: nat, text: string, i: nat)
    requires At(s, pos, text) && i < |text|
    ensures pos + i < |s| && s[pos + i] == text[i]
  {
    AtSlice(s, pos, text);
    assert s[pos..pos + |text|][i] == s[pos + i];
  }

  /** An element ends here: at the end of the string, at whitespace, or at one of `,` `]` `}` `:`. */
  predicate Delimited(s: string, pos: nat) {
    pos >= |s| || IsSpace(s[pos]) || IsMark(s[pos])
  }

  predicate IsMark(c: char) { c == ',' || c == ':' || c == ']' || c == '}' }

  predicate Solid(s: string, pos: nat) { pos < |s| && !IsSpace(s[pos]) }

  lemma {:induction false} SkipPad(s: string, pos: nat, pad: string)
    requires At(s, pos, pad) && Solid(s, pos + |pad|) && Blank(pad)
    ensures SkipWhitespace(s, pos) == pos + |pad|
    decreases |pad|
  {
    BlankIsSpace(pad);
    if pad != "" { SkipPad(s, pos + 1, pad[1..]); }
  }

  lemma PadThenDelimiter(s: string, pos: nat, pad: string)
    requires At(s, pos, pad) && Delimited(s, pos + |pad|) && Blank(pad)
    ensures Delimited(s, pos)
  {
    BlankIsSpace(pad);
    assert pad != "" ==> s[pos] == pad[0];
  }

  // ---------------------------------------------------------------- strings, numbers

  lemma {:induction false} StringBack(s: string, pos: nat, pieces: seq<Piece>, quote: char, result: string)
    requires QuoteMark(quote) && PiecesFit(quote, pieces) && At(s, pos, PiecesText(pieces) + [quote])
    ensures StringBody(s, pos, quote, result) == Ok(result + TextOf(pieces), pos + |PiecesText(pieces)| + 1)
    decreases |pieces|
  {
    if pieces == [] {
      assert PiecesText(pieces) + [quote] == [quote];
      AtChar(s, pos, [quote], 0);
      assert result + TextOf(pieces) == result;
    } else {
      var p := pieces[0];
      var head, rest := if p.Plain? then [p.c] else ['\\', p.c], PiecesText(pieces[1..]) + [quote];
      assert PiecesText(pieces) + [quote] == head + rest;
      AtSplit(s, pos, head, rest);
      AtChar(s, pos, head, 0);
      if p.Escaped? {
        AtChar(s, pos, head, 1);
        assert CharOf(p) == Unescape(p.c);
      }
      StringBack(s, pos + |head|, pieces[1..], quote, result + [CharOf(p)]);
      assert TextOf(pieces) == [CharOf(p)] + TextOf(pieces[1..]);
      assert result + [CharOf(p)] + TextOf(pieces[1..]) == result + TextOf(pieces);
    }
  }

  lemma QuotedBack(lib: Lib, s: string, pos: nat, pieces: seq<Piece>, quote: char, v: Value)
    requires QuoteMark(quote) && PiecesFit(quote, pieces) && At(s, pos, QuotedText(quote, pieces))
    requires TextMeans(lib, TextOf(pieces), v)
    ensures pos < |s| && s[pos] == quote
    ensures ParseString(lib, s, pos) == Ok(v, pos + |QuotedText(quote, pieces)|)
  {
    AtSplit(s, pos, [quote], PiecesText(pieces) + [quote]);
    AtChar(s, pos, [quote], 0);
    StringBack(s, pos + 1, pieces, quote, "");
    assert "" + TextOf(pieces) == TextOf(pieces);
    TextIsMeant(lib, TextOf(pieces));
  }

  lemma TripleFitsRest(quote: char, text: string)
    requires text != "" && TripleFits(quote, text)
    ensures TripleFits(quote, text[1..]) && !StandsAt(text + Three(quote), 0, Three(quote))
  {
    var all, rest := text + Three(quote), text[1..] + Three(quote);
    assert rest == all[1..];
    forall i | 0 <= i < |text| - 1 ensures !StandsAt(rest, i, Three(quote)) {
      assert rest[i..i + 3] == all[i + 1..i + 4];
      assert !StandsAt(all, i + 1, Three(quote));
    }
  }

  lemma {:induction false} TripleBodyBack(s: string, pos: nat, text: string, quote: char, result: string)
    requires At(s, pos, text + Three(quote)) && TripleFits(quote, text)
    ensures TripleBody(s, pos, Three(quote), result) == Ok(result + text, pos + |text| + 3)
    decreases |text|
  {
    AtSlice(s, pos, text + Three(quote));
    if text == "" {
      assert text + Three(quote) == Three(quote) && Slice(s, pos, 3) == Three(quote);
      assert result + text == result;
    } else {
      TripleFitsRest(quote, text);
      assert (text + Three(quote))[..3] == s[pos..pos + 3];
      assert (text + Three(quote))[1..] == text[1..] + Three(quote) && (text + Three(quote))[0] == text[0];
      TripleBodyBack(s, pos + 1, text[1..], quote, result + [text[0]]);
      assert result + [text[0]] + text[1..] == result + text;
    }
  }

  lemma TripledBack(lib: Lib, s: string, pos: nat, text: string, quote: char, v: Value)
    requires QuoteMark(quote) && TripleFits(quote, text) && At(s, pos, Three(quote) + (text + Three(quote)))
    requires TextMeans(lib, text, v)
    ensures pos < |s| && IsQuote(s[pos]) && StartsTriple(s, pos)
    ensures ParseTriple(lib, s, pos) == Ok(v, pos + |Three(quote) + (text + Three(quote))|)
  {
    AtSplit(s, pos, Three(quote), text + Three(quote));
    AtSlice(s, pos, Three(quote));
    assert Slice(s, pos, 3) == Three(quote);
    assert Three('"') == "\"\"\"" && Three('\'') == "'''";
    TripleBodyBack(s, pos + 3, text, quote, "");
    assert "" + text == text;
    TextIsMeant(lib, text);
  }

  lemma TripleChars(s: string, pos: nat)
    requires pos <= |s| && StartsTriple(s, pos)
    ensures pos + 3 <= |s| && IsQuote(s[pos]) && s[pos + 1] == s[pos] && s[pos + 2] == s[pos]
  {
    var t := Slice(s, pos, 3);
    assert t[0] == s[pos] && t[1] == s[pos + 1] && t[2] == s[pos + 2];
  }

  // A quoted text is not mistaken for a triple quote: no plain character is the quote, and the empty
  // string is followed by a delimiter.
  lemma QuotedIsNotTriple(s: string, pos: nat, pieces: seq<Piece>, quote: char)
    requires QuoteMark(quote) && PiecesFit(quote, pieces) && At(s, pos, QuotedText(quote, pieces))
    requires Delimited(s, pos + |QuotedText(quote, pieces)|)
    ensures pos <= |s| && !StartsTriple(s, pos)
  {
    var text := QuotedText(quote, pieces);
    AtChar(s, pos, text, 0);
    AtChar(s, pos, text, 1);
    if pieces != [] {
      assert PiecesText(pieces)[0] == if pieces[0].Plain? then pieces[0].c else '\\';
      assert text[1] != quote;
    } else {
      assert |text| == 2;
    }
    assert pos + 3 > |s| || s[pos + 1] != quote || s[pos + 2] != quote;
    if StartsTriple(s, pos) { TripleChars(s, pos); }
  }

  lemma {:induction false} NumberEnd(s: string, pos: nat, text: string)
    requires At(s, pos, text) && Delimited(s, pos + |text|)
    requires forall i :: 0 <= i < |text| ==> IsNumberChar(text[i])
    ensures SkipNumber(s, pos) == pos + |text|
    decreases |text|
  {
    if text != "" { NumberEnd(s, pos + 1, text[1..]); }
  }

  lemma LiteralBack(s: string, pos: nat, text: string, word: string)
    requires At(s, pos, text) && Lower(text) == word && word != ""
    ensures pos < |s| && LowerChar(s[pos]) == word[0] && Lower(Slice(s, pos, |word|)) == word
  {
    AtSlice(s, pos, text);
    assert Slice(s, pos, |word|) == text;
    assert Lower(text)[0] == LowerChar(text[0]);
  }

  // The three literals do not begin like one another, nor like anything else.
  lemma NotLiteral(s: string, pos: nat, word: string)
    requires pos < |s| && word != "" && LowerChar(s[pos]) != word[0]
    ensures Lower(Slice(s, pos, |word|)) != word
  {
    var t := Slice(s, pos, |word|);
    assert t[0] == s[pos];
    assert Lower(t)[0] == LowerChar(t[0]);
  }

  // ---------------------------------------------------------------- brackets and commas

  lemma LowerFirst(text: string, word: string)
    requires Lower(text) == word && word != ""
    ensures text != "" && LowerChar(text[0]) == word[0]
  {
    assert Lower(text)[0] == LowerChar(text[0]);
  }

  // The text of a tree starts with no blank and no closing bracket.
  lemma YieldSolid(t: Tree)
    requires WellFormed(t)
    ensures Yield(t) != "" && !IsSpace(Yield(t)[0]) && Yield(t)[0] != ']'
  {
    match t
    case Literal(text) =>
      Words();
      LowerSpells(text, "true");
      LowerSpells(text, "false");
      LowerSpells(text, "null");
      if Lower(text) == "true" { LowerFirst(text, "true"); }
      if Lower(text) == "false" { LowerFirst(text, "false"); }
      if Lower(text) == "null" { LowerFirst(text, "null"); }
    case Numeral(text) => NumeralChars(text);
    case Quote(_, _) =>
    case Triple(_, _) =>
    case List(_, _) =>
    case Dict(_, _) =>
  }

  // What the separator reads after the last element, and that the element is delimited.
  lemma CloseBack(s: string, pos: nat, before: string, close: char)
    requires (close == ']' || close == '}') && Blank(before) && At(s, pos, before)
    requires pos + |before| < |s| && s[pos + |before|] == close
    ensures pos <= |s| && Delimited(s, pos) && Separator(s, pos, close) == Close(pos + |before| + 1)
  {
    SkipPad(s, pos, before);
    PadThenDelimiter(s, pos, before);
  }

  lemma CommaBack(s: string, pos: nat, before: string, after: string, close: char)
    requires (close == ']' || close == '}') && Blank(before) && Blank(after)
    requires At(s, pos, before) && At(s, pos + |before|, ",") && At(s, pos + |before| + 1, after)
    requires Solid(s, pos + |before| + 1 + |after|)
    ensures pos <= |s| && Delimited(s, pos) && Separator(s, pos, close) == More(pos + |before| + 1 + |after|)
  {
    AtChar(s, pos + |before|, ",", 0);
    SkipPad(s, pos, before);
    SkipPad(s, pos + |before| + 1, after);
    PadThenDelimiter(s, pos, before);
  }

  // ---------------------------------------------------------------- where the parts stand

  lemma ListParts(s: string, pos: nat, text: string, comma: string, rest: string)
    requires At(s, pos, text + (comma + rest))
    ensures At(s, pos, text) && At(s, pos + |text|, comma) && At(s, pos + |text| + |comma|, rest)
  {
    AtSplit(s, pos, text, comma + rest);
    AtSplit(s, pos + |text|, comma, rest);
  }

  // A bracket, padding, the contents and the other bracket.
  lemma BracketParts(s: string, pos: nat, open: char, pad: string, body: string, close: char)
    requires At(s, pos, [open] + (pad + (body + [close])))
    ensures pos < |s| && s[pos] == open && At(s, pos + 1, pad) && At(s, pos + 1 + |pad|, body)
    ensures pos + 1 + |pad| + |body| < |s| && s[pos + 1 + |pad| + |body|] == close
  {
    AtSplit(s, pos, [open], pad + (body + [close]));
    ListParts(s, pos + 1, pad, body, [close]);
  }

  // An element, its comma and the rest of a list, one after the other.
  lemma CommaParts(s: string, pos: nat, text: string, before: string, after: string, rest: string)
    requires At(s, pos, text + (before + ("," + (after + rest))))
    ensures |text + (before + ("," + (after + rest)))| == |text| + |before| + 1 + |after| + |rest|
    ensures var p := pos + |text|;
            && At(s, pos, text) && At(s, p, before) && At(s, p + |before|, ",")
            && At(s, p + |before| + 1, after) && At(s, p + |before| + 1 + |after|, rest)
  {
    hide At;
    ListParts(s, pos, text, before, "," + (after + rest));
    ListParts(s, pos + |text| + |before|, ",", after, rest);
  }

  // A key, the colon and the value.
  lemma MemberParts(s: string, pos: nat, key: string, before: string, after: string, text: string)
    requires At(s, pos, key + (before + (":" + (after + text)))) && Blank(before) && Blank(after)
    requires text != "" && !IsSpace(text[0])
    ensures At(s, pos, key) && pos + |key| <= |s|
    ensures var p := SkipWhitespace(s, pos + |key|);
            && p == pos + |key| + |before| && p < |s| && s[p] == ':'
            && SkipWhitespace(s, p + 1) == p + 1 + |after| && At(s, p + 1 + |after|, text)
  {
    AtSplit(s, pos, key, before + (":" + (after + text)));
    ListParts(s, pos + |key|, before, ":", after + text);
    var p := pos + |key| + |before|;
    AtChar(s, p, ":", 0);
    SkipPad(s, pos + |key|, before);
    AtSplit(s, p + 1, after, text);
    SkipPad(s, p + 1, after);
  }

  // ---------------------------------------------------------------- one step of the parser

  lemma ParseOpens(lib: Lib, s: string, pos: nat)
    requires pos < |s| && (s[pos] == '{' || s[pos] == '[')
    ensures ParseValue(lib, s, pos) ==
            if s[pos] == '{' then ParseMembers(lib, s, SkipWhitespace(s, pos + 1), [])
            else ParseItems(lib, s, SkipWhitespace(s, pos + 1), [])
  {
    assert SkipWhitespace(s, pos) == pos;
  }

  lemma ParseQuoted(lib: Lib, s: string, pos: nat)
    requires pos < |s| && IsQuote(s[pos]) && !StartsTriple(s, pos)
    ensures ParseValue(lib, s, pos) == ParseString(lib, s, pos)
  {
    hide ParseString;
    assert SkipWhitespace(s, pos) == pos;
  }

  lemma ParseTripled(lib: Lib, s: string, pos: nat)
    requires pos < |s| && IsQuote(s[pos]) && StartsTriple(s, pos)
    ensures ParseValue(lib, s, pos) == ParseTriple(lib, s, pos)
  {
    hide ParseTriple, StartsTriple;
    assert SkipWhitespace(s, pos) == pos;
  }

  lemma ParseLiteral(lib: Lib, s: string, pos: nat, word: string)
    requires word == "true" || word == "false" || word == "null"
    requires pos < |s| && LowerChar(s[pos]) == word[0] && Lower(Slice(s, pos, |word|)) == word
    ensures ParseValue(lib, s, pos) ==
            Ok(if word == "null" then Null else Bool(word == "true"), pos + |word|)
  {
    assert SkipWhitespace(s, pos) == pos;
    NotTriple(s, pos);
    if word != "true" { NotLiteral(s, pos, "true"); }
    if word == "null" { NotLiteral(s, pos, "false"); }
  }

  lemma ParseNumeral(lib: Lib, s: string, pos: nat)
    requires pos < |s| && StartsNumber(s[pos])
    ensures ParseValue(lib, s, pos) == ParseNumber(lib, s, pos)
  {
    assert SkipWhitespace(s, pos) == pos;
    NotTriple(s, pos);
    NotLiteral(s, pos, "true");
    NotLiteral(s, pos, "false");
    NotLiteral(s, pos, "null");
  }

  lemma NotTriple(s: string, pos: nat)
    requires pos < |s| && !IsQuote(s[pos])
    ensures !StartsTriple(s, pos)
  {
    if StartsTriple(s, pos) { TripleChars(s, pos); }
  }

  lemma MemberStep(lib: Lib, s: string, pos: nat, key: Value, p1: nat, value: Value, end: nat)
    requires pos < |s| && IsQuote(s[pos]) && p1 <= |s| && ParseString(lib, s, pos) == Ok(key, p1)
    requires var p2 := SkipWhitespace(s, p1);
             p2 < |s| && s[p2] == ':' && ParseValue(lib, s, SkipWhitespace(s, p2 + 1)) == Ok(value, end)
    ensures ParseMember(lib, s, pos) == Ok(Member(key, value), end)
  {
    hide ParseValue, ParseString;
  }

  lemma ListEnds(lib: Lib, s: string, pos: nat, items: seq<Value>, members: seq<Member>)
    requires pos < |s|
    ensures s[pos] == ']' ==> ParseItems(lib, s, pos, items) == Ok(Arr(items), pos + 1)
    ensures s[pos] == '}' ==> ParseMembers(lib, s, pos, members) == Ok(Obj(members), pos + 1)
  {
  }

  // ---------------------------------------------------------------- reading a tree's text

  /** The text of a tree stands at `pos`, and something that ends an element after it. */
  ghost predicate Standing(lib: Lib, s: string, pos: nat, t: Tree, v: Value) {
    WellFormed(t) && Means(lib, t, v) && At(s, pos, Yield(t)) && Delimited(s, pos + |Yield(t)|)
  }

  lemma {:induction false} ValueBack(lib: Lib, s: string, pos: nat, t: Tree, v: Value)
    requires Standing(lib, s, pos, t, v)
    ensures ParseValue(lib, s, pos) == Ok(v, pos + |Yield(t)|)
    decreases t, 1
  {
    hide ParseValue, ParseMembers, ParseItems, ParseMember, At, ConvertValue;
    match t
    case Literal(text) => WordBack(lib, s, pos, text, v);
    case Numeral(text) => NumeralBack(lib, s, pos, text, v);
    case Quote(quote, pieces) =>
      QuotedBack(lib, s, pos, pieces, quote, v);
      QuotedIsNotTriple(s, pos, pieces, quote);
      ParseQuoted(lib, s, pos);
    case Triple(quote, text) =>
      TripledBack(lib, s, pos, text, quote, v);
      ParseTripled(lib, s, pos);
    case List(open, items) => ListBack(lib, s, pos, open, items, v.items);
    case Dict(open, entries) =>
      var raw :| EntriesMean(lib, entries, raw) && v.members == DictOf(raw);
      DictBack(lib, s, pos, open, entries, raw);
  }

  lemma WordBack(lib: Lib, s: string, pos: nat, text: string, v: Value)
    requires LiteralMeans(text, v) && At(s, pos, text)
    ensures ParseValue(lib, s, pos) == Ok(v, pos + |text|)
  {
    hide ParseValue, At, Spells;
    Words();
    var word := if v.Null? then "null" else if v.b then "true" else "false";
    LowerSpells(text, "true");
    LowerSpells(text, "false");
    LowerSpells(text, "null");
    LiteralBack(s, pos, text, word);
    ParseLiteral(lib, s, pos, word);
    assert "true"[0] != "null"[0] && "false"[0] != "null"[0] && "true"[0] != "false"[0];
    hide Lower;
  }

  lemma NumeralBack(lib: Lib, s: string, pos: nat, text: string, v: Value)
    requires NumeralText(text) && NumberMeans(lib, text, v) && At(s, pos, text) && Delimited(s, pos + |text|)
    ensures ParseValue(lib, s, pos) == Ok(v, pos + |text|)
  {
    hide ParseValue, At, Number, Delimited, NumberMeans;
    NumeralChars(text);
    NumberIsMeant(lib, text);
    AtSlice(s, pos, text);
    AtChar(s, pos, text, 0);
    NumberEnd(s, pos, text);
    ParseNumeral(lib, s, pos);
  }

  lemma {:induction false} ListBack(lib: Lib, s: string, pos: nat, open: string, items: Items, vs: seq<Value>)
    requires Blank(open) && WellFormedItems(items) && ItemsMean(lib, items, vs) && At(s, pos, Yield(List(open, items)))
    ensures ParseValue(lib, s, pos) == Ok(Arr(vs), pos + |Yield(List(open, items))|)
    decreases items, 2
  {
    hide ParseValue, ParseItems, SkipWhitespace, YieldItems, WellFormedItems, ItemsMean, At;
    BracketParts(s, pos, '[', open, YieldItems(items), ']');
    ItemsBack(lib, s, pos + 1 + |open|, items, vs, []);
    SkipPad(s, pos + 1, open);
    ParseOpens(lib, s, pos);
    assert [] + vs == vs;
  }

  lemma {:induction false} DictBack(lib: Lib, s: string, pos: nat, open: string, entries: Entries, raw: seq<Member>)
    requires Blank(open) && WellFormedEntries(entries) && EntriesMean(lib, entries, raw)
    requires At(s, pos, Yield(Dict(open, entries)))
    ensures ParseValue(lib, s, pos) == Ok(Obj(DictOf(raw)), pos + |Yield(Dict(open, entries))|)
    decreases entries, 2
  {
    hide *;
    DictParts(s, pos, open, entries);
    EntriesBack(lib, s, pos + 1 + |open|, entries, raw, []);
    DictOpens(lib, s, pos, open);
    assert [] + raw == raw;
  }

  lemma EmptyDict()
    ensures DictOf([]) == []
  {
  }

  lemma DictOpens(lib: Lib, s: string, pos: nat, open: string)
    requires pos < |s| && s[pos] == '{' && Blank(open) && At(s, pos + 1, open) && Solid(s, pos + 1 + |open|)
    ensures pos + 1 + |open| < |s| && !IsSpace(s[pos + 1 + |open|])
    ensures ParseValue(lib, s, pos) == ParseMembers(lib, s, pos + 1 + |open|, DictOf([]))
  {
    EmptyDict();
    hide ParseValue, ParseMembers, DictOf, At, Blank, SkipWhitespace;
    SkipPad(s, pos + 1, open);
    ParseOpens(lib, s, pos);
  }

  lemma DictParts(s: string, pos: nat, open: string, entries: Entries)
    requires At(s, pos, Yield(Dict(open, entries)))
    ensures |Yield(Dict(open, entries))| == 2 + |open| + |YieldEntries(entries)|
    ensures pos < |s| && s[pos] == '{' && At(s, pos + 1, open) && At(s, pos + 1 + |open|, YieldEntries(entries))
    ensures var end := pos + 1 + |open| + |YieldEntries(entries)|; end < |s| && s[end] == '}'
  {
    hide YieldEntries;
    BracketParts(s, pos, '{', open, YieldEntries(entries), '}');
    hide At;
  }

  lemma {:induction false} ItemsBack(lib: Lib, s: string, pos: nat, items: Items, vs: seq<Value>, done: seq<Value>)
    requires WellFormedItems(items) && ItemsMean(lib, items, vs) && At(s, pos, YieldItems(items))
    requires pos + |YieldItems(items)| < |s| && s[pos + |YieldItems(items)|] == ']'
    ensures Solid(s, pos)
    ensures ParseItems(lib, s, pos, done) == Ok(Arr(done + vs), pos + |YieldItems(items)| + 1)
    decreases items, 1
  {
    hide *;
    match items {
      case NoItem =>
        NoItemStep(lib, s, pos, vs, done);
      case LastItem(t, before) =>
        LastItemParts(lib, s, pos, t, before, vs);
        ValueBack(lib, s, pos, t, vs[0]);
        LastItemStep(lib, s, pos, pos + |Yield(t)|, before, vs[0], done);
      case MoreItems(t, before, after, rest) =>
        var p := pos + |Yield(t)|;
        var next := p + |before| + 1 + |after|;
        MoreItemsText(s, pos, t, before, after, rest);
        MoreItemsMean(lib, t, before, after, rest, vs);
        ItemsBack(lib, s, next, rest, vs[1..], done + [vs[0]]);
        CommaBack(s, p, before, after, ']');
        ItemStands(lib, s, pos, t, vs[0]);
        ValueBack(lib, s, pos, t, vs[0]);
        SolidInside(s, next);
        MoreItemsStep(lib, s, pos, p, next, vs[0], done);
        assert done + [vs[0]] + vs[1..] == done + vs;
    }
  }

  lemma SolidInside(s: string, pos: nat)
    requires Solid(s, pos)
    ensures pos < |s| && !IsSpace(s[pos])
  {
  }

  lemma ItemStands(lib: Lib, s: string, pos: nat, t: Tree, v: Value)
    requires WellFormed(t) && Means(lib, t, v) && At(s, pos, Yield(t)) && Delimited(s, pos + |Yield(t)|)
    ensures Standing(lib, s, pos, t, v) && Solid(s, pos) && pos < |s| && s[pos] != ']'
  {
    hide Yield, WellFormed, Means;
    YieldSolid(t);
    AtChar(s, pos, Yield(t), 0);
  }

  lemma NoItemStep(lib: Lib, s: string, pos: nat, vs: seq<Value>, done: seq<Value>)
    requires ItemsMean(lib, NoItem, vs)
    requires var end := pos + |YieldItems(NoItem)|; end < |s| && s[end] == ']'
    ensures YieldItems(NoItem) == "" && Solid(s, pos) && ParseItems(lib, s, pos, done) == Ok(Arr(done + vs), pos + 1)
  {
    assert done + vs == done;
    ListEnds(lib, s, pos, done, []);
  }

  lemma LastItemParts(lib: Lib, s: string, pos: nat, t: Tree, before: string, vs: seq<Value>)
    requires WellFormedItems(LastItem(t, before)) && ItemsMean(lib, LastItem(t, before), vs)
    requires At(s, pos, YieldItems(LastItem(t, before)))
    requires var end := pos + |YieldItems(LastItem(t, before))|; end < |s| && s[end] == ']'
    ensures vs == [vs[0]] && Standing(lib, s, pos, t, vs[0]) && Solid(s, pos) && pos < |s| && s[pos] != ']'
    ensures var p := pos + |Yield(t)|;
            && YieldItems(LastItem(t, before)) == Yield(t) + before
            && p <= |s| && Separator(s, p, ']') == Close(p + |before| + 1)
  {
    hide Yield, WellFormed, Means, Blank, Separator, Standing;
    AtSplit(s, pos, Yield(t), before);
    CloseBack(s, pos + |Yield(t)|, before, ']');
    ItemStands(lib, s, pos, t, vs[0]);
  }

  lemma MoreItemsText(s: string, pos: nat, t: Tree, before: string, after: string, rest: Items)
    requires At(s, pos, YieldItems(MoreItems(t, before, after, rest)))
    ensures var p := pos + |Yield(t)|;
            && |YieldItems(MoreItems(t, before, after, rest))| == |Yield(t)| + |before| + 1 + |after| + |YieldItems(rest)|
            && At(s, pos, Yield(t)) && At(s, p, before) && At(s, p + |before|, ",")
            && At(s, p + |before| + 1, after) && At(s, p + |before| + 1 + |after|, YieldItems(rest))
  {
    hide Yield, At;
    CommaParts(s, pos, Yield(t), before, after, YieldItems(rest));
  }

  lemma MoreItemsMean(lib: Lib, t: Tree, before: string, after: string, rest: Items, vs: seq<Value>)
    requires WellFormedItems(MoreItems(t, before, after, rest)) && ItemsMean(lib, MoreItems(t, before, after, rest), vs)
    ensures vs != [] && Means(lib, t, vs[0]) && ItemsMean(lib, rest, vs[1..])
    ensures WellFormed(t) && Blank(before) && Blank(after) && WellFormedItems(rest)
  {
    hide WellFormed, Means, Blank;
  }

  lemma LastItemStep(lib: Lib, s: string, pos: nat, p: nat, before: string, v: Value, done: seq<Value>)
    requires pos < |s| && s[pos] != ']' && p + |before| < |s| && s[p + |before|] == ']'
    requires ParseValue(lib, s, pos) == Ok(v, p) && Separator(s, p, ']') == Close(p + |before| + 1)
    ensures ParseItems(lib, s, pos, done) == Ok(Arr(done + [v]), p + |before| + 1)
  {
    hide ParseValue, Separator;
  }

  lemma MoreItemsStep(lib: Lib, s: string, pos: nat, p: nat, next: nat, v: Value, done: seq<Value>)
    requires pos < |s| && s[pos] != ']' && p <= |s| && next <= |s|
    requires ParseValue(lib, s, pos) == Ok(v, p) && Separator(s, p, ']') == More(next)
    ensures ParseItems(lib, s, pos, done) == ParseItems(lib, s, next, done + [v])
  {
    hide ParseValue, Separator;
  }

  lemma {:induction false} EntryBack(lib: Lib, s: string, pos: nat, e: Entry, m: Member)
    requires WellFormedEntry(e) && EntryMeans(lib, e, m)
    requires At(s, pos, YieldEntry(e)) && Delimited(s, pos + |YieldEntry(e)|)
    ensures pos < |s| && IsQuote(s[pos]) && ParseMember(lib, s, pos) == Ok(m, pos + |YieldEntry(e)|)
    decreases e, 2
  {
    hide ParseValue, Yield, Means, TextMeans, WellFormed, Blank;
    var key, text := QuotedText(e.quote, e.pieces), Yield(e.value);
    YieldSolid(e.value);
    MemberParts(s, pos, key, e.beforeColon, e.afterColon, text);
    QuotedBack(lib, s, pos, e.pieces, e.quote, m.key);
    var p := pos + |key| + |e.beforeColon| + 1 + |e.afterColon|;
    ValueBack(lib, s, p, e.value, m.value);
    MemberStep(lib, s, pos, m.key, pos + |key|, m.value, p + |text|);
  }

  lemma {:induction false} EntriesBack(lib: Lib, s: string, pos: nat, entries: Entries, raw: seq<Member>, done: seq<Member>)
    requires WellFormedEntries(entries) && EntriesMean(lib, entries, raw) && At(s, pos, YieldEntries(entries))
    requires pos + |YieldEntries(entries)| < |s| && s[pos + |YieldEntries(entries)|] == '}'
    ensures Solid(s, pos)
    ensures ParseMembers(lib, s, pos, DictOf(done)) == Ok(Obj(DictOf(done + raw)), pos + |YieldEntries(entries)| + 1)
    decreases entries, 1
  {
    hide *;
    EntriesSolid(s, pos, entries);
    match entries {
      case NoEntry =>
        NoEntryStep(lib, s, pos, raw, done);
      case LastEntry(e, before) =>
        LastEntryParts(lib, s, pos, e, before, raw);
        EntryBack(lib, s, pos, e, raw[0]);
        LastEntryStep(lib, s, pos, pos + |YieldEntry(e)|, before, raw[0], done);
      case MoreEntries(e, before, after, rest) =>
        var p := pos + |YieldEntry(e)|;
        var next := p + |before| + 1 + |after|;
        MoreEntriesText(s, pos, e, before, after, rest);
        MoreEntriesMean(lib, e, before, after, rest, raw);
        EntriesBack(lib, s, next, rest, raw[1..], done + [raw[0]]);
        CommaBack(s, p, before, after, '}');
        EntryBack(lib, s, pos, e, raw[0]);
        MoreEntriesStep(lib, s, pos, p, next, raw[0], done);
        assert done + [raw[0]] + raw[1..] == done + raw;
    }
  }

  lemma NoEntryStep(lib: Lib, s: string, pos: nat, raw: seq<Member>, done: seq<Member>)
    requires EntriesMean(lib, NoEntry, raw)
    requires var end := pos + |YieldEntries(NoEntry)|; end < |s| && s[end] == '}'
    ensures YieldEntries(NoEntry) == "" && ParseMembers(lib, s, pos, DictOf(done)) == Ok(Obj(DictOf(done + raw)), pos + 1)
  {
    assert done + raw == done;
    ListEnds(lib, s, pos, [], DictOf(done));
  }

  lemma LastEntryParts(lib: Lib, s: string, pos: nat, e: Entry, before: string, raw: seq<Member>)
    requires WellFormedEntries(LastEntry(e, before)) && EntriesMean(lib, LastEntry(e, before), raw)
    requires At(s, pos, YieldEntries(LastEntry(e, before)))
    requires var end := pos + |YieldEntries(LastEntry(e, before))|; end < |s| && s[end] == '}'
    ensures raw == [raw[0]] && EntryMeans(lib, e, raw[0]) && WellFormedEntry(e)
    ensures var p := pos + |YieldEntry(e)|;
            && YieldEntries(LastEntry(e, before)) == YieldEntry(e) + before
            && At(s, pos, YieldEntry(e)) && p <= |s| && Delimited(s, p) && Separator(s, p, '}') == Close(p + |before| + 1)
  {
    hide YieldEntry, WellFormedEntry, EntryMeans, Blank, Separator;
    AtSplit(s, pos, YieldEntry(e), before);
    CloseBack(s, pos + |YieldEntry(e)|, before, '}');
  }

  lemma MoreEntriesText(s: string, pos: nat, e: Entry, before: string, after: string, rest: Entries)
    requires At(s, pos, YieldEntries(MoreEntries(e, before, after, rest)))
    ensures var p := pos + |YieldEntry(e)|;
            && |YieldEntries(MoreEntries(e, before, after, rest))|
               == |YieldEntry(e)| + |before| + 1 + |after| + |YieldEntries(rest)|
            && At(s, pos, YieldEntry(e)) && At(s, p, before) && At(s, p + |before|, ",")
            && At(s, p + |before| + 1, after) && At(s, p + |before| + 1 + |after|, YieldEntries(rest))
  {
    hide YieldEntry, At;
    CommaParts(s, pos, YieldEntry(e), before, after, YieldEntries(rest));
  }

  lemma MoreEntriesMean(lib: Lib, e: Entry, before: string, after: string, rest: Entries, raw: seq<Member>)
    requires WellFormedEntries(MoreEntries(e, before, after, rest)) && EntriesMean(lib, MoreEntries(e, before, after, rest), raw)
    ensures raw != [] && EntryMeans(lib, e, raw[0]) && EntriesMean(lib, rest, raw[1..])
    ensures WellFormedEntry(e) && Blank(before) && Blank(after) && WellFormedEntries(rest)
  {
    hide WellFormedEntry, EntryMeans, Blank;
  }

  lemma LastEntryStep(lib: Lib, s: string, pos: nat, p: nat, before: string, m: Member, done: seq<Member>)
    requires pos < |s| && IsQuote(s[pos]) && p + |before| < |s| && s[p + |before|] == '}'
    requires ParseMember(lib, s, pos) == Ok(m, p) && Separator(s, p, '}') == Close(p + |before| + 1)
    ensures ParseMembers(lib, s, pos, DictOf(done)) == Ok(Obj(DictOf(done + [m])), p + |before| + 1)
  {
    hide ParseMember, Separator, DictOf, PutMember;
    DictOfMore(done, m);
  }

  lemma MoreEntriesStep(lib: Lib, s: string, pos: nat, p: nat, next: nat, m: Member, done: seq<Member>)
    requires pos < |s| && IsQuote(s[pos]) && p <= |s| && next < |s| && !IsSpace(s[next])
    requires ParseMember(lib, s, pos) == Ok(m, p) && Separator(s, p, '}') == More(next)
    ensures ParseMembers(lib, s, pos, DictOf(done)) == ParseMembers(lib, s, next, DictOf(done + [m]))
  {
    hide ParseMember, Separator, DictOf, PutMember;
    DictOfMore(done, m);
  }

  // What stands where the entries begin: a key, or the brace after none.
  lemma EntriesSolid(s: string, pos: nat, entries: Entries)
    requires WellFormedEntries(entries) && At(s, pos, YieldEntries(entries))
    requires pos + |YieldEntries(entries)| < |s| && s[pos + |YieldEntries(entries)|] == '}'
    ensures Solid(s, pos)
  {
    if entries != NoEntry { AtChar(s, pos, YieldEntries(entries), 0); }
  }
}

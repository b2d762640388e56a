/** What the parser reads is the text of a tree of the grammar, and its result is what the tree means. */
module JsonSound {
  import opened Basics
  import opened Json
  import opened JsonGrammar
  import opened JsonMeaning

  /** The text from `from` to `to` is that of the tree, which means `v`. */
  ghost predicate ReadsAs(lib: Lib, s: string, from: nat, to: nat, t: Tree, v: Value) {
    from <= to <= |s| && Sub(s, from, to) == Yield(t) && WellFormed(t) && Means(lib, t, v)
  }

  /** `s[a:b]` */
  function Sub(s: string, a: nat, b: nat): string
    requires a <= b <= |s|
  {
    s[a..b]
  }

  lemma Join(s: string, a: nat, b: nat, c: nat)
    requires a <= b <= c <= |s|
    ensures Sub(s, a, b) + Sub(s, b, c) == Sub(s, a, c)
  {
  }

  lemma SubInside(s: string, a: nat, b: nat, i: nat, n: nat)
    requires a <= b <= |s| && i + n <= b - a
    ensures Sub(s, a, b)[i..i + n] == Sub(s, a + i, a + i + n)
  {
    var x, y := Sub(s, a, b)[i..i + n], Sub(s, a + i, a + i + n);
    assert |x| == |y| && forall k :: 0 <= k < n ==> x[k] == y[k];
  }

  lemma Single(s: string, i: nat)
    requires i < |s|
    ensures Sub(s, i, i + 1) == [s[i]]
  {
  }

  lemma Assoc<T>(a: seq<T>, b: seq<T>, c: seq<T>)
    ensures a + b + c == a + (b + c)
  {
  }

  lemma SkipBlank(s: string, pos: nat)
    requires pos <= |s|
    ensures Blank(Sub(s, pos, SkipWhitespace(s, pos)))
  {
    BlankIsSpace(s[pos..SkipWhitespace(s, pos)]);
  }

  // ---------------------------------------------------------------- strings

  lemma {:induction false} StringSound(s: string, pos: nat, quote: char, result: string) returns (pieces: seq<Piece>)
    requires pos <= |s| && StringBody(s, pos, quote, result).Ok?
    ensures var r := StringBody(s, pos, quote, result);
            && PiecesFit(quote, pieces) && r.value == result + TextOf(pieces)
            && Sub(s, pos, r.pos) == PiecesText(pieces) + [quote]
    decreases |s| - pos
  {
    var end := StringBody(s, pos, quote, result).pos;
    if s[pos] != '\\' && s[pos] == quote {
      pieces := [];
      assert result + TextOf([]) == result && PiecesText([]) + [quote] == [quote] && Sub(s, pos, pos + 1) == [quote];
    } else {
      var p, n := if s[pos] == '\\' then Escaped(s[pos + 1]) else Plain(s[pos]), if s[pos] == '\\' then 2 else 1;
      assert CharOf(p) == if s[pos] == '\\' then Unescape(s[pos + 1]) else s[pos];
      var rest := StringSound(s, pos + n, quote, result + [CharOf(p)]);
      pieces := [p] + rest;
      PieceFirst(p, rest, quote);
      assert Sub(s, pos, pos + n) == if p.Plain? then [p.c] else ['\\', p.c];
      Join(s, pos, pos + n, end);
      assert result + [CharOf(p)] + TextOf(rest) == result + ([CharOf(p)] + TextOf(rest));
    }
  }

  lemma PieceFirst(p: Piece, rest: seq<Piece>, quote: char)
    ensures PiecesText([p] + rest) + [quote] == (if p.Plain? then [p.c] else ['\\', p.c]) + (PiecesText(rest) + [quote])
    ensures TextOf([p] + rest) == [CharOf(p)] + TextOf(rest)
    ensures PiecesFit(quote, rest) && (p.Plain? ==> p.c != quote && p.c != '\\') ==> PiecesFit(quote, [p] + rest)
  {
    assert ([p] + rest)[1..] == rest;
  }

  lemma QuotedParsed(lib: Lib, s: string, pos: nat, pieces: seq<Piece>, end: nat)
    requires pos < |s| && StringBody(s, pos + 1, s[pos], "") == Ok("" + TextOf(pieces), end)
    requires IsQuote(s[pos]) && end <= |s| && Sub(s, pos + 1, end) == PiecesText(pieces) + [s[pos]]
    ensures ParseString(lib, s, pos) == Ok(ConvertValue(lib, TextOf(pieces)), end)
    ensures Sub(s, pos, end) == QuotedText(s[pos], pieces)
  {
    hide StringBody, Sub, ConvertValue, TextOf, PiecesText;
    assert "" + TextOf(pieces) == TextOf(pieces);
    Join(s, pos, pos + 1, end);
    Single(s, pos);
  }

  lemma QuotedSound(lib: Lib, s: string, pos: nat) returns (pieces: seq<Piece>)
    requires pos < |s| && IsQuote(s[pos]) && ParseString(lib, s, pos).Ok?
    ensures var r := ParseString(lib, s, pos);
            && QuoteMark(s[pos]) && PiecesFit(s[pos], pieces) && TextMeans(lib, TextOf(pieces), r.value)
            && Sub(s, pos, r.pos) == QuotedText(s[pos], pieces)
  {
    hide StringBody, ConvertValue, TextOf, PiecesText, QuotedText, PiecesFit, Sub, TextMeans;
    pieces := StringSound(s, pos + 1, s[pos], "");
    TextIsMeant(lib, TextOf(pieces));
    QuotedParsed(lib, s, pos, pieces, ParseString(lib, s, pos).pos);
  }

  lemma {:induction false} TripleBodySound(s: string, pos: nat, quote: char, result: string)
    requires pos <= |s| && TripleBody(s, pos, Three(quote), result).Ok?
    ensures var r := TripleBody(s, pos, Three(quote), result);
            && pos + 3 <= r.pos && r.value == result + Sub(s, pos, r.pos - 3) && Sub(s, r.pos - 3, r.pos) == Three(quote)
            && forall i :: pos <= i < r.pos - 3 ==> !StandsAt(s, i, Three(quote))
    decreases |s| - pos
  {
    TripleStep(s, pos, quote, result);
    hide *;
    if Slice(s, pos, 3) != Three(quote) {
      TripleBodySound(s, pos + 1, quote, result + [s[pos]]);
      var end := TripleBody(s, pos, Three(quote), result).pos;
      Join(s, pos, pos + 1, end - 3);
      Single(s, pos);
      Assoc(result, [s[pos]], Sub(s, pos + 1, end - 3));
    }
  }

  lemma TripleStep(s: string, pos: nat, quote: char, result: string)
    requires pos <= |s| && TripleBody(s, pos, Three(quote), result).Ok?
    ensures pos < |s| && |Three(quote)| == 3
    ensures if Slice(s, pos, 3) == Three(quote)
            then TripleBody(s, pos, Three(quote), result) == Ok(result, pos + 3) && pos + 3 <= |s|
                 && Sub(s, pos, pos + 3) == Three(quote) && result + Sub(s, pos, pos) == result
            else TripleBody(s, pos, Three(quote), result) == TripleBody(s, pos + 1, Three(quote), result + [s[pos]])
                 && !StandsAt(s, pos, Three(quote))
  {
  }

  lemma TripleFitsIn(s: string, from: nat, to: nat, quote: char)
    requires from <= to && to + 3 <= |s| && Sub(s, to, to + 3) == Three(quote)
    requires forall i :: from <= i < to ==> !StandsAt(s, i, Three(quote))
    ensures TripleFits(quote, Sub(s, from, to))
  {
    var text := Sub(s, from, to);
    Join(s, from, to, to + 3);
    forall i | 0 <= i < |text| ensures !StandsAt(text + Three(quote), i, Three(quote)) {
      SubInside(s, from, to + 3, i, 3);
      assert !StandsAt(s, from + i, Three(quote));
    }
  }

  lemma ThreeQuotes(s: string, pos: nat)
    requires pos <= |s| && StartsTriple(s, pos)
    ensures pos + 3 <= |s| && QuoteMark(s[pos]) && Slice(s, pos, 3) == Sub(s, pos, pos + 3) == Three(s[pos])
  {
    assert Three('"') == "\"\"\"" && Three('\'') == "'''";
    assert Slice(s, pos, 3)[0] == s[pos];
  }

  lemma TripleReads(lib: Lib, s: string, from: nat, to: nat, quote: char, text: string)
    requires from + 3 <= to - 3 && to <= |s| && text == Sub(s, from + 3, to - 3)
    requires Sub(s, from, from + 3) == Sub(s, to - 3, to) == Three(quote) && QuoteMark(quote) && TripleFits(quote, text)
    ensures ReadsAs(lib, s, from, to, Triple(quote, text), ConvertValue(lib, text))
  {
    hide TripleFits, TextMeans, Three, ConvertValue, Sub;
    Join(s, from, from + 3, to);
    Join(s, from + 3, to - 3, to);
    TextIsMeant(lib, text);
  }

  lemma TripleParsed(lib: Lib, s: string, pos: nat)
    requires pos <= |s| && StartsTriple(s, pos) && ParseTriple(lib, s, pos).Ok?
    ensures pos + 3 <= |s| && TripleBody(s, pos + 3, Three(s[pos]), "").Ok?
    ensures var r := TripleBody(s, pos + 3, Three(s[pos]), "");
            ParseTriple(lib, s, pos) == Ok(ConvertValue(lib, r.value), r.pos)
  {
    ThreeQuotes(s, pos);
    hide StartsTriple, TripleBody, ConvertValue, Three;
  }

  lemma NothingBefore(text: string)
    ensures "" + text == text
  {
  }

  lemma TripleSound(lib: Lib, s: string, pos: nat) returns (t: Tree)
    requires pos <= |s| && StartsTriple(s, pos) && ParseTriple(lib, s, pos).Ok?
    ensures t.Triple? && ReadsAs(lib, s, pos, ParseTriple(lib, s, pos).pos, t, ParseTriple(lib, s, pos).value)
  {
    hide *;
    ThreeQuotes(s, pos);
    TripleParsed(lib, s, pos);
    var quote, end := s[pos], ParseTriple(lib, s, pos).pos;
    TripleBodySound(s, pos + 3, quote, "");
    var text := Sub(s, pos + 3, end - 3);
    NothingBefore(text);
    TripleFitsIn(s, pos + 3, end - 3, quote);
    TripleReads(lib, s, pos, end, quote, text);
    t := Triple(quote, text);
  }

  // ---------------------------------------------------------------- literals and numbers

  lemma LiteralSound(lib: Lib, s: string, pos: nat, word: string)
    requires word == "true" || word == "false" || word == "null"
    requires pos <= |s| && Lower(Slice(s, pos, |word|)) == word
    ensures pos + |word| <= |s|
    ensures ReadsAs(lib, s, pos, pos + |word|, Literal(Sub(s, pos, pos + |word|)),
                    if word == "null" then Null else Bool(word == "true"))
  {
    Words();
    LowerSpells(Slice(s, pos, |word|), word);
    assert "true"[0] != "null"[0] && |"false"| == 5;
  }

  lemma NumeralSound(lib: Lib, s: string, pos: nat)
    requires pos < |s| && StartsNumber(s[pos]) && ParseNumber(lib, s, pos).Ok?
    ensures var r := ParseNumber(lib, s, pos); ReadsAs(lib, s, pos, r.pos, Numeral(Sub(s, pos, r.pos)), r.value)
  {
    hide StartsNumber, IsNumberChar, Number;
    var end := SkipNumber(s, pos);
    NumeralChars(Sub(s, pos, end));
    NumberIsMeant(lib, Sub(s, pos, end));
  }

  // ---------------------------------------------------------------- lists and dicts

  lemma SeparatorSound(s: string, pos: nat, close: char) returns (before: string, after: string)
    requires pos <= |s| && close != ',' && !Separator(s, pos, close).Neither?
    ensures var r := Separator(s, pos, close);
            && Blank(before) && Blank(after)
            && (r.More? ==> Sub(s, pos, r.pos) == before + ("," + after))
            && (r.Close? ==> Sub(s, pos, r.pos) == before + [close])
  {
    hide Sub, SkipWhitespace, Blank;
    var p, r := SkipWhitespace(s, pos), Separator(s, pos, close);
    before, after := Sub(s, pos, p), "";
    SkipBlank(s, pos);
    BlankNothing();
    Join(s, pos, p, r.pos);
    Single(s, p);
    if r.More? {
      after := Sub(s, p + 1, r.pos);
      SkipBlank(s, p + 1);
      Join(s, p, p + 1, r.pos);
    }
  }

  lemma BlankNothing()
    ensures Blank("")
  {
  }

  lemma {:induction false} ValueSound(lib: Lib, s: string, start: nat) returns (t: Tree)
    requires start <= |s| && ParseValue(lib, s, start).Ok?
    ensures SkipWhitespace(s, start) < |s|
    ensures var r, from := ParseValue(lib, s, start), SkipWhitespace(s, start);
            ReadsAs(lib, s, from, r.pos, t, r.value) && (s[from] == '{' ==> t.Dict?)
    decreases |s| - start, 2
  {
    hide ReadsAs, ParseMembers, ParseItems, ParseTriple, ParseString, ParseNumber, StartsTriple;
    var pos := SkipWhitespace(s, start);
    if s[pos] == '{' {
      t := DictSound(lib, s, pos);
    } else if s[pos] == '[' {
      t := ListSound(lib, s, pos);
    } else if StartsTriple(s, pos) {
      t := TripleSound(lib, s, pos);
    } else if IsQuote(s[pos]) {
      var pieces := QuotedSound(lib, s, pos);
      t := Quote(s[pos], pieces);
      QuoteReads(lib, s, pos, ParseValue(lib, s, start).pos, t, ParseValue(lib, s, start).value);
    } else if Lower(Slice(s, pos, 4)) == "true" {
      LiteralSound(lib, s, pos, "true");
      t := Literal(Sub(s, pos, pos + 4));
    } else if Lower(Slice(s, pos, 5)) == "false" {
      LiteralSound(lib, s, pos, "false");
      t := Literal(Sub(s, pos, pos + 5));
    } else if Lower(Slice(s, pos, 4)) == "null" {
      LiteralSound(lib, s, pos, "null");
      t := Literal(Sub(s, pos, pos + 4));
    } else {
      NumeralSound(lib, s, pos);
      t := Numeral(Sub(s, pos, ParseValue(lib, s, start).pos));
    }
  }

  lemma QuoteReads(lib: Lib, s: string, from: nat, to: nat, t: Tree, v: Value)
    requires t.Quote? && from <= to <= |s| && Sub(s, from, to) == QuotedText(t.quote, t.pieces)
    requires QuoteMark(t.quote) && PiecesFit(t.quote, t.pieces) && TextMeans(lib, TextOf(t.pieces), v)
    ensures ReadsAs(lib, s, from, to, t, v)
  {
  }

  lemma {:induction false} ListSound(lib: Lib, s: string, pos: nat) returns (t: Tree)
    requires pos < |s| && s[pos] == '[' && ParseItems(lib, s, SkipWhitespace(s, pos + 1), []).Ok?
    ensures var r := ParseItems(lib, s, SkipWhitespace(s, pos + 1), []); ReadsAs(lib, s, pos, r.pos, t, r.value)
    decreases |s| - pos, 1
  {
    hide ParseItems, Sub, SkipWhitespace, Blank, WellFormedItems, ItemsMean, YieldItems;
    var p := SkipWhitespace(s, pos + 1);
    var end := ParseItems(lib, s, p, []).pos;
    var items, vs := ItemsSound(lib, s, p, []);
    assert [] + vs == vs;
    SkipBlank(s, pos + 1);
    t := List(Sub(s, pos + 1, p), items);
    Single(s, pos);
    Join(s, pos, pos + 1, end);
    Join(s, pos + 1, p, end);
  }

  lemma {:induction false} ItemsSound(lib: Lib, s: string, pos: nat, done: seq<Value>)
    returns (items: Items, vs: seq<Value>)
    requires pos <= |s| && (pos < |s| ==> !IsSpace(s[pos])) && ParseItems(lib, s, pos, done).Ok?
    ensures var r := ParseItems(lib, s, pos, done);
            && r.value == Arr(done + vs) && WellFormedItems(items) && ItemsMean(lib, items, vs)
            && Sub(s, pos, r.pos) == YieldItems(items) + "]"
    decreases |s| - pos, 4
  {
    hide ParseValue, Separator, WellFormed, Means, Yield, SkipWhitespace, Blank, Sub, ReadsAs;
    var end := ParseItems(lib, s, pos, done).pos;
    if s[pos] == ']' {
      items, vs := NoItem, [];
      Single(s, pos);
      assert done + [] == done && "" + "]" == "]";
    } else {
      var first := ParseValue(lib, s, pos);
      var v, p := first.value, first.pos;
      SkipNothing(s, pos);
      var t := ValueSound(lib, s, pos);
      ItemRead(lib, s, pos, p, t, v);
      var before, after := SeparatorSound(s, p, ']');
      var next := Separator(s, p, ']');
      Join(s, pos, p, end);
      if next.More? {
        var rest, more := ItemsSound(lib, s, next.pos, done + [v]);
        items, vs := MoreItems(t, before, after, rest), [v] + more;
        Join(s, p, next.pos, end);
        Assoc(done, [v], more);
        MoreItemsText(Yield(t), before, after, YieldItems(rest));
        assert vs[0] == v && vs[1..] == more;
      } else {
        items, vs := LastItem(t, before), [v];
        Assoc(Yield(t), before, "]");
      }
    }
  }

  lemma SkipNothing(s: string, pos: nat)
    requires pos < |s| && !IsSpace(s[pos])
    ensures SkipWhitespace(s, pos) == pos
  {
  }

  lemma ItemRead(lib: Lib, s: string, from: nat, to: nat, t: Tree, v: Value)
    requires ReadsAs(lib, s, from, to, t, v)
    ensures from <= to <= |s| && Sub(s, from, to) == Yield(t) && WellFormed(t) && Means(lib, t, v)
  {
  }

  lemma MoreItemsText(text: string, before: string, after: string, rest: string)
    ensures text + ((before + ("," + after)) + (rest + "]")) == text + (before + ("," + (after + rest))) + "]"
    ensures text + ((before + ("," + after)) + (rest + "}")) == text + (before + ("," + (after + rest))) + "}"
  {
  }

  lemma NoEntries()
    ensures DictOf([]) == []
  {
  }

  lemma {:induction false} DictSound(lib: Lib, s: string, pos: nat) returns (t: Tree)
    requires pos < |s| && s[pos] == '{' && ParseMembers(lib, s, SkipWhitespace(s, pos + 1), []).Ok?
    ensures var r := ParseMembers(lib, s, SkipWhitespace(s, pos + 1), []); t.Dict? && ReadsAs(lib, s, pos, r.pos, t, r.value)
    decreases |s| - pos, 1
  {
    NoEntries();
    hide ParseMembers, Sub, SkipWhitespace, Blank, WellFormedEntries, EntriesMean, YieldEntries, DictOf;
    var p := SkipWhitespace(s, pos + 1);
    var end := ParseMembers(lib, s, p, []).pos;
    var entries, raw := EntriesSound(lib, s, p, []);
    assert [] + raw == raw;
    SkipBlank(s, pos + 1);
    t := Dict(Sub(s, pos + 1, p), entries);
    Single(s, pos);
    Join(s, pos, pos + 1, end);
    Join(s, pos + 1, p, end);
  }

  lemma {:induction false} EntrySound(lib: Lib, s: string, pos: nat) returns (e: Entry)
    requires pos < |s| && !IsSpace(s[pos]) && ParseMember(lib, s, pos).Ok?
    ensures var r := ParseMember(lib, s, pos);
            WellFormedEntry(e) && EntryMeans(lib, e, r.value) && Sub(s, pos, r.pos) == YieldEntry(e)
    decreases |s| - pos, 3
  {
    hide ParseValue, ParseString, WellFormed, Means, Yield, TextMeans, PiecesFit, Sub, SkipWhitespace, Blank, QuotedText, ReadsAs;
    var p1 := ParseString(lib, s, pos).pos;
    var pieces := QuotedSound(lib, s, pos);
    var p2 := SkipWhitespace(s, p1);
    var p3, end := SkipWhitespace(s, p2 + 1), ParseMember(lib, s, pos).pos;
    SkipBlank(s, p1);
    SkipBlank(s, p2 + 1);
    SkipTwice(s, p2 + 1);
    var t := ValueSound(lib, s, p3);
    ItemRead(lib, s, p3, end, t, ParseMember(lib, s, pos).value.value);
    e := Entry(s[pos], pieces, Sub(s, p1, p2), Sub(s, p2 + 1, p3), t);
    Single(s, p2);
    Join(s, pos, p1, end);
    Join(s, p1, p2, end);
    Join(s, p2, p2 + 1, end);
    Join(s, p2 + 1, p3, end);
  }

  lemma SkipTwice(s: string, pos: nat)
    requires pos <= |s|
    ensures SkipWhitespace(s, SkipWhitespace(s, pos)) == SkipWhitespace(s, pos)
  {
  }

  lemma {:induction false} EntriesSound(lib: Lib, s: string, pos: nat, raw: seq<Member>)
    returns (entries: Entries, more: seq<Member>)
    requires pos <= |s| && (pos < |s| ==> !IsSpace(s[pos])) && ParseMembers(lib, s, pos, DictOf(raw)).Ok?
    ensures var r := ParseMembers(lib, s, pos, DictOf(raw));
            && r.value == Obj(DictOf(raw + more)) && WellFormedEntries(entries) && EntriesMean(lib, entries, more)
            && Sub(s, pos, r.pos) == YieldEntries(entries) + "}"
    decreases |s| - pos, 4
  {
    hide ParseMember, Separator, WellFormedEntry, EntryMeans, YieldEntry, DictOf, PutMember, Sub, Blank;
    var end := ParseMembers(lib, s, pos, DictOf(raw)).pos;
    if s[pos] == '}' {
      entries, more := NoEntry, [];
      Single(s, pos);
      assert raw + [] == raw && "" + "}" == "}";
    } else {
      var first := ParseMember(lib, s, pos);
      var m, p := first.value, first.pos;
      var e := EntrySound(lib, s, pos);
      var before, after := SeparatorSound(s, p, '}');
      var next := Separator(s, p, '}');
      DictOfMore(raw, m);
      Join(s, pos, p, end);
      if next.More? {
        var rest, others := EntriesSound(lib, s, next.pos, raw + [m]);
        entries, more := MoreEntries(e, before, after, rest), [m] + others;
        Join(s, p, next.pos, end);
        Assoc(raw, [m], others);
        assert more[0] == m && more[1..] == others;
        MoreItemsText(YieldEntry(e), before, after, YieldEntries(rest));
      } else {
        entries, more := LastEntry(e, before), [m];
        Assoc(YieldEntry(e), before, "}");
      }
    }
  }
}

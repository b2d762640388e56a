/**
 What `extract_json` accepts, said without the parser: trees of the tolerant grammar, the text of a tree,
 and the value it stands for.
 */
module JsonGrammar {
  import opened Basics
  import opened Json

  // ---------------------------------------------------------------- trees

  /** A character of a quoted string, written as itself or behind a backslash. */
  datatype Piece = Plain(c: char) | Escaped(c: char)

  datatype Tree =
    | Literal(text: string)
    | Numeral(text: string)
    | Quote(quote: char, pieces: seq<Piece>)
    | Triple(quote: char, text: string)
    | List(open: string, items: Items)
    | Dict(open: string, entries: Entries)

  /** The elements after an opening bracket and its blanks: none, or a last one without a comma, or one
      with a comma, after which the list may also end. */
  datatype Items =
    | NoItem
    | LastItem(value: Tree, before: string)
    | MoreItems(value: Tree, before: string, after: string, rest: Items)

  datatype Entry = Entry(quote: char, pieces: seq<Piece>, beforeColon: string, afterColon: string, value: Tree)

  datatype Entries =
    | NoEntry
    | LastEntry(entry: Entry, before: string)
    | MoreEntries(entry: Entry, before: string, after: string, rest: Entries)

  // ---------------------------------------------------------------- their text

  function PiecesText(pieces: seq<Piece>): string {
    if pieces == [] then "" else
    (match pieces[0] case Plain(c) => [c] case Escaped(c) => ['\\', c]) + PiecesText(pieces[1..])
  }

  function QuotedText(quote: char, pieces: seq<Piece>): string { [quote] + (PiecesText(pieces) + [quote]) }

  function Three(quote: char): string { [quote, quote, quote] }

  function Yield(t: Tree): string {
    match t
    case Literal(text) => text
    case Numeral(text) => text
    case Quote(quote, pieces) => QuotedText(quote, pieces)
    case Triple(quote, text) => Three(quote) + (text + Three(quote))
    case List(open, items) => "[" + (open + (YieldItems(items) + "]"))
    case Dict(open, entries) => "{" + (open + (YieldEntries(entries) + "}"))
  }

  function YieldItems(items: Items): string {
    match items
    case NoItem => ""
    case LastItem(value, before) => Yield(value) + before
    case MoreItems(value, before, after, rest) => Yield(value) + (before + ("," + (after + YieldItems(rest))))
  }

  function YieldEntry(e: Entry): string {
    QuotedText(e.quote, e.pieces) + (e.beforeColon + (":" + (e.afterColon + Yield(e.value))))
  }

  function YieldEntries(entries: Entries): string {
    match entries
    case NoEntry => ""
    case LastEntry(entry, before) => YieldEntry(entry) + before
    case MoreEntries(entry, before, after, rest) =>
      YieldEntry(entry) + (before + ("," + (after + YieldEntries(rest))))
  }

  // ---------------------------------------------------------------- which trees there are

  predicate Blank(s: string) { forall i :: 0 <= i < |s| ==> s[i] in " \t\n\r" }

  predicate QuoteMark(c: char) { c == '"' || c == '\'' }

  predicate NumeralText(s: string) {
    && s != "" && s[0] in "-+0123456789."
    && forall i :: 0 <= i < |s| ==> s[i] in "-+0123456789.eE"
  }

  /** The word in any mixture of cases. */
  predicate Spells(text: string, word: string) {
    && |text| == |word|
    && forall i :: 0 <= i < |word| ==> text[i] == word[i] || text[i] as int + 32 == word[i] as int
  }

  predicate IsLiteral(text: string) { Spells(text, "true") || Spells(text, "false") || Spells(text, "null") }

  predicate PiecesFit(quote: char, pieces: seq<Piece>) {
    forall i :: 0 <= i < |pieces| && pieces[i].Plain? ==> pieces[i].c != quote && pieces[i].c != '\\'
  }

  predicate StandsAt(s: string, i: nat, part: string) { i + |part| <= |s| && s[i..i + |part|] == part }

  /** The closing quotes stand nowhere earlier. */
  predicate TripleFits(quote: char, text: string) {
    forall i :: 0 <= i < |text| ==> !StandsAt(text + Three(quote), i, Three(quote))
  }

  predicate WellFormed(t: Tree) {
    match t
    case Literal(text) => IsLiteral(text)
    case Numeral(text) => NumeralText(text)
    case Quote(quote, pieces) => QuoteMark(quote) && PiecesFit(quote, pieces)
    case Triple(quote, text) => QuoteMark(quote) && TripleFits(quote, text)
    case List(open, items) => Blank(open) && WellFormedItems(items)
    case Dict(open, entries) => Blank(open) && WellFormedEntries(entries)
  }

  predicate WellFormedItems(items: Items) {
    match items
    case NoItem => true
    case LastItem(value, before) => WellFormed(value) && Blank(before)
    case MoreItems(value, before, after, rest) =>
      WellFormed(value) && Blank(before) && Blank(after) && WellFormedItems(rest)
  }

  predicate WellFormedEntry(e: Entry) {
    && QuoteMark(e.quote) && PiecesFit(e.quote, e.pieces)
    && Blank(e.beforeColon) && Blank(e.afterColon) && WellFormed(e.value)
  }

  predicate WellFormedEntries(entries: Entries) {
    match entries
    case NoEntry => true
    case LastEntry(entry, before) => WellFormedEntry(entry) && Blank(before)
    case MoreEntries(entry, before, after, rest) =>
      WellFormedEntry(entry) && Blank(before) && Blank(after) && WellFormedEntries(rest)
  }

  // ---------------------------------------------------------------- what they mean

  /** The characters of a quoted string: n, t and r behind a backslash are newline, tab and return. */
  function CharOf(p: Piece): char {
    if p == Escaped('n') then '\n' else if p == Escaped('t') then '\t' else if p == Escaped('r') then '\r' else p.c
  }

  function TextOf(pieces: seq<Piece>): string {
    seq(|pieces|, i requires 0 <= i < |pieces| => CharOf(pieces[i]))
  }

  predicate HasFraction(text: string) { '.' in text || 'e' in text || 'E' in text }

  /** An int is spelled without point and exponent, a float with one of them. */
  ghost predicate NumberMeans(lib: Lib, text: string, v: Value) {
    || (v.Int? && !HasFraction(text) && lib.pyInt(text) == Some(v.n))
    || (v.Float? && HasFraction(text) && lib.pyFloat(text) == Some(v.token))
  }

  ghost predicate NoNumber(lib: Lib, text: string) {
    if HasFraction(text) then lib.pyFloat(text) == None else lib.pyInt(text) == None
  }

  ghost predicate LiteralMeans(text: string, v: Value) {
    || (Spells(text, "true") && v == Bool(true))
    || (Spells(text, "false") && v == Bool(false))
    || (Spells(text, "null") && v == Null)
  }

  /** A string is a literal or a number if it reads like one. */
  ghost predicate TextMeans(lib: Lib, text: string, v: Value) {
    if IsLiteral(text) then LiteralMeans(text, v)
    else NumberMeans(lib, text, v) || (NoNumber(lib, text) && v == Str(text))
  }

  ghost predicate Means(lib: Lib, t: Tree, v: Value) {
    match t
    case Literal(text) => LiteralMeans(text, v)
    case Numeral(text) => NumberMeans(lib, text, v)
    case Quote(_, pieces) => TextMeans(lib, TextOf(pieces), v)
    case Triple(_, text) => TextMeans(lib, text, v)
    case List(_, items) => v.Arr? && ItemsMean(lib, items, v.items)
    case Dict(_, entries) => v.Obj? && exists raw :: EntriesMean(lib, entries, raw) && v.members == DictOf(raw)
  }

  ghost predicate ItemsMean(lib: Lib, items: Items, vs: seq<Value>) {
    match items
    case NoItem => vs == []
    case LastItem(value, _) => |vs| == 1 && Means(lib, value, vs[0])
    case MoreItems(value, _, _, rest) => vs != [] && Means(lib, value, vs[0]) && ItemsMean(lib, rest, vs[1..])
  }

  ghost predicate EntryMeans(lib: Lib, e: Entry, m: Member) {
    TextMeans(lib, TextOf(e.pieces), m.key) && Means(lib, e.value, m.value)
  }

  ghost predicate EntriesMean(lib: Lib, entries: Entries, raw: seq<Member>) {
    match entries
    case NoEntry => raw == []
    case LastEntry(entry, _) => |raw| == 1 && EntryMeans(lib, entry, raw[0])
    case MoreEntries(entry, _, _, rest) => raw != [] && EntryMeans(lib, entry, raw[0]) && EntriesMean(lib, rest, raw[1..])
  }

  // ---------------------------------------------------------------- dicts

  /** Python's equality of keys: True is 1 and False is 0. */
  predicate KeysEqual(a: Value, b: Value) {
    || a == b
    || (a == Bool(true) && b == Int(1)) || (a == Int(1) && b == Bool(true))
    || (a == Bool(false) && b == Int(0)) || (a == Int(0) && b == Bool(false))
  }

  predicate HasKey(raw: seq<Member>, key: Value) { exists i :: 0 <= i < |raw| && KeysEqual(raw[i].key, key) }

  /** The keys in the order and the spelling of their first entries. */
  function FirstKeys(raw: seq<Member>): seq<Value> {
    if raw == [] then [] else
    var before, m := raw[..|raw| - 1], raw[|raw| - 1];
    FirstKeys(before) + (if HasKey(before, m.key) then [] else [m.key])
  }

  /** The value of the last entry with this key. */
  function LastValue(raw: seq<Member>, key: Value): Value
    requires HasKey(raw, key)
  {
    var last := |raw| - 1;
    if KeysEqual(raw[last].key, key) then raw[last].value else LastValue(raw[..last], key)
  }

  lemma HasKeyAppend(raw: seq<Member>, m: Member, key: Value)
    ensures HasKey(raw + [m], key) <==> HasKey(raw, key) || KeysEqual(m.key, key)
  {
    var all := raw + [m];
    assert all[|raw|] == m && forall i :: 0 <= i < |raw| ==> all[i] == raw[i];
  }

  lemma {:induction false} FirstKeysAreKeys(raw: seq<Member>)
    ensures forall j :: 0 <= j < |FirstKeys(raw)| ==> HasKey(raw, FirstKeys(raw)[j])
  {
    if raw != [] {
      hide HasKey;
      var before, m := raw[..|raw| - 1], raw[|raw| - 1];
      assert before + [m] == raw;
      FirstKeysAreKeys(before);
      forall j | 0 <= j < |FirstKeys(raw)| ensures HasKey(raw, FirstKeys(raw)[j]) {
        HasKeyAppend(before, m, FirstKeys(raw)[j]);
        if j < |FirstKeys(before)| { assert FirstKeys(raw)[j] == FirstKeys(before)[j]; }
      }
    }
  }

  /** The dict that these entries make, one after the other. */
  function DictOf(raw: seq<Member>): seq<Member> {
    FirstKeysAreKeys(raw);
    var keys := FirstKeys(raw);
    seq(|keys|, j requires 0 <= j < |keys| => Member(keys[j], LastValue(raw, keys[j])))
  }
}

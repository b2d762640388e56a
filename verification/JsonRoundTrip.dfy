/** Exactly which texts `extract_json` accepts and what it makes of them, and which dicts come back
    unchanged however they are written. */
module JsonRoundTrip {
  import opened Basics
  import opened Json
  import opened JsonGrammar
  import opened JsonMeaning
  import opened JsonSound
  import opened JsonComplete

  // ---------------------------------------------------------------- the entry point

  lemma BodyBetween(pre: string, text: string, post: string)
    requires text != "" && text[0] == '{' && text[|text| - 1] == '}'
    requires '{' !in pre && '}' !in post
    ensures Body(pre + text + post) == Some(text)
  {
    var s := pre + text + post;
    var start, end := |pre|, |pre| + |text| - 1;
    assert s[start] == '{' && s[end] == '}';
    assert forall i :: 0 <= i < start ==> s[i] == pre[i] && pre[i] in pre;
    assert forall i :: end < i < |s| ==> s[i] == post[i - end - 1] && post[i - end - 1] in post;
    FirstIs(s, '{', start);
    LastIs(s, '}', end);
    assert s[start..end + 1] == text;
  }

  lemma {:induction false} FirstIs(s: string, c: char, at: nat)
    requires at < |s| && s[at] == c && forall i :: 0 <= i < at ==> s[i] != c
    ensures IndexOf(s, c) == Some(at)
  {
    if at != 0 { FirstIs(s[1..], c, at - 1); }
  }

  lemma {:induction false} LastIs(s: string, c: char, at: nat)
    requires at < |s| && s[at] == c && forall i :: at < i < |s| ==> s[i] != c
    ensures LastIndexOf(s, c) == Some(at)
  {
    if at != |s| - 1 { LastIs(s[..|s| - 1], c, at); }
  }

  lemma DictBraces(t: Tree)
    requires t.Dict?
    ensures Yield(t) != "" && Yield(t)[0] == '{' && Yield(t)[|Yield(t)| - 1] == '}'
  {
    var inner := t.open + (YieldEntries(t.entries) + "}");
    assert inner[|inner| - 1] == '}';
  }

  /** `s` is the text of a dict that means `v`, after a text without `{` and before one without `}`. */
  ghost predicate Accepts(lib: Lib, s: string, v: Value, pre: string, t: Tree, post: string) {
    && s == pre + Yield(t) + post && '{' !in pre && '}' !in post
    && t.Dict? && WellFormed(t) && Means(lib, t, v)
  }

  lemma AcceptedIsRead(lib: Lib, s: string, v: Value, pre: string, t: Tree, post: string)
    requires Accepts(lib, s, v, pre, t, post)
    ensures ExtractJson(lib, s) == Some(v)
  {
    hide ParseValue, Yield, Body, Means, WellFormed;
    var text := Yield(t);
    DictBraces(t);
    BodyBetween(pre, text, post);
    AtSlice(text, 0, text);
    assert Standing(lib, text, 0, t, v);
    ValueBack(lib, text, 0, t, v);
    assert SkipWhitespace(text, |text|) == |text|;
  }

  // The text between the braces, what is before it and what is after it.
  lemma BodyParts(s: string) returns (pre: string, post: string)
    requires Body(s).Some? && Body(s).value != ""
    ensures s == pre + Body(s).value + post && '{' !in pre && '}' !in post
    ensures var body := Body(s).value; body[0] == '{' && body[|body| - 1] == '}'
  {
    hide IndexOf, LastIndexOf;
    var start, end := IndexOf(s, '{').value, LastIndexOf(s, '}').value;
    pre, post := s[..start], s[end + 1..];
  }

  lemma NoBlankEnd(s: string, pos: nat)
    requires pos <= |s| && s != "" && s[|s| - 1] == '}' && SkipWhitespace(s, pos) == |s|
    ensures pos == |s|
  {
    assert !IsSpace(s[|s| - 1]);
  }

  lemma ReadIsAccepted(lib: Lib, s: string, v: Value) returns (pre: string, t: Tree, post: string)
    requires ExtractJson(lib, s) == Some(v)
    ensures Accepts(lib, s, v, pre, t, post)
  {
    hide ParseValue, Yield, Body, Means, WellFormed, SkipWhitespace;
    var body := Body(s).value;
    NothingToRead(lib);
    pre, post := BodyParts(s);
    t := ValueSound(lib, body, 0);
    var end := ParseValue(lib, body, 0).pos;
    NoBlankEnd(body, end);
    StartsSolid(body);
    assert body[0..|body|] == body;
  }

  lemma NothingToRead(lib: Lib)
    ensures ParseValue(lib, "", 0).Err?
  {
  }

  lemma StartsSolid(s: string)
    requires s != "" && s[0] == '{'
    ensures SkipWhitespace(s, 0) == 0
  {
  }

  /** `extract_json` returns a value exactly for these texts, and exactly the value they mean; any other
      text raises. */
  lemma ExtractExactly(lib: Lib, s: string, v: Value)
    ensures ExtractJson(lib, s) == Some(v) <==> exists pre, t, post :: Accepts(lib, s, v, pre, t, post)
  {
    hide ExtractJson, Accepts;
    if ExtractJson(lib, s) == Some(v) {
      var pre, t, post := ReadIsAccepted(lib, s, v);
    }
    if pre, t, post :| Accepts(lib, s, v, pre, t, post) {
      AcceptedIsRead(lib, s, v, pre, t, post);
    }
  }

  // ---------------------------------------------------------------- writing a value

  /** The tree is a way to write this value: any quotes, escapes, blanks, trailing commas, cases of the
      literals and spellings of the numbers. */
  ghost predicate Writes(lib: Lib, t: Tree, v: Value) {
    match t
    case Literal(text) => LiteralMeans(text, v)
    case Numeral(text) => NumberMeans(lib, text, v)
    case Quote(_, pieces) => v == Str(TextOf(pieces))
    case Triple(_, text) => v == Str(text)
    case List(_, items) => v.Arr? && ItemsWrite(lib, items, v.items)
    case Dict(_, entries) => v.Obj? && EntriesWrite(lib, entries, v.members)
  }

  ghost predicate ItemsWrite(lib: Lib, items: Items, vs: seq<Value>) {
    match items
    case NoItem => vs == []
    case LastItem(value, _) => |vs| == 1 && Writes(lib, value, vs[0])
    case MoreItems(value, _, _, rest) => vs != [] && Writes(lib, value, vs[0]) && ItemsWrite(lib, rest, vs[1..])
  }

  ghost predicate EntryWrites(lib: Lib, e: Entry, m: Member) {
    m.key == Str(TextOf(e.pieces)) && Writes(lib, e.value, m.value)
  }

  ghost predicate EntriesWrite(lib: Lib, entries: Entries, members: seq<Member>) {
    match entries
    case NoEntry => members == []
    case LastEntry(entry, _) => |members| == 1 && EntryWrites(lib, entry, members[0])
    case MoreEntries(entry, _, _, rest) =>
      members != [] && EntryWrites(lib, entry, members[0]) && EntriesWrite(lib, rest, members[1..])
  }

  // ---------------------------------------------------------------- what comes back

  function KeyText(key: Value): string { if key.Str? then key.s else "" }

  /** The value that comes back: `convert_value` is applied to every string and key, and the entries are
      put into a dict one after the other. */
  function Reread(lib: Lib, v: Value): Value
    decreases v, 1
  {
    match v
    case Str(s) => ConvertValue(lib, s)
    case Arr(items) => Arr(RereadItems(lib, items))
    case Obj(members) => Obj(DictOf(RereadMembers(lib, members)))
    case _ => v
  }

  function RereadItems(lib: Lib, items: seq<Value>): (r: seq<Value>)
    ensures |r| == |items|
    decreases items, 0
  {
    if items == [] then [] else [Reread(lib, items[0])] + RereadItems(lib, items[1..])
  }

  function RereadMember(lib: Lib, m: Member): Member
    decreases m, 2
  {
    Member(ConvertValue(lib, KeyText(m.key)), Reread(lib, m.value))
  }

  function RereadMembers(lib: Lib, members: seq<Member>): (r: seq<Member>)
    ensures |r| == |members|
    decreases members, 0
  {
    if members == [] then [] else [RereadMember(lib, members[0])] + RereadMembers(lib, members[1..])
  }

  lemma {:induction false} WrittenMeans(lib: Lib, t: Tree, v: Value)
    requires Writes(lib, t, v)
    ensures Means(lib, t, Reread(lib, v))
  {
    match t
    case Literal(_) =>
    case Numeral(_) =>
    case Quote(_, pieces) => TextIsMeant(lib, TextOf(pieces));
    case Triple(_, text) => TextIsMeant(lib, text);
    case List(_, items) => WrittenItemsMean(lib, items, v.items);
    case Dict(_, entries) => WrittenEntriesMean(lib, entries, v.members);
  }

  lemma {:induction false} WrittenItemsMean(lib: Lib, items: Items, vs: seq<Value>)
    requires ItemsWrite(lib, items, vs)
    ensures ItemsMean(lib, items, RereadItems(lib, vs))
  {
    hide Means, Writes, Reread;
    match items
    case NoItem =>
    case LastItem(value, _) => WrittenMeans(lib, value, vs[0]);
    case MoreItems(value, _, _, rest) =>
      WrittenMeans(lib, value, vs[0]);
      WrittenItemsMean(lib, rest, vs[1..]);
      assert RereadItems(lib, vs)[1..] == RereadItems(lib, vs[1..]);
  }

  lemma {:induction false} WrittenEntryMeans(lib: Lib, e: Entry, m: Member)
    requires EntryWrites(lib, e, m)
    ensures EntryMeans(lib, e, RereadMember(lib, m))
  {
    hide Means, Writes, Reread;
    TextIsMeant(lib, TextOf(e.pieces));
    WrittenMeans(lib, e.value, m.value);
  }

  lemma {:induction false} WrittenEntriesMean(lib: Lib, entries: Entries, members: seq<Member>)
    requires EntriesWrite(lib, entries, members)
    ensures EntriesMean(lib, entries, RereadMembers(lib, members))
  {
    hide EntryMeans, EntryWrites, RereadMember;
    match entries
    case NoEntry =>
    case LastEntry(entry, _) => WrittenEntryMeans(lib, entry, members[0]);
    case MoreEntries(entry, _, _, rest) =>
      WrittenEntryMeans(lib, entry, members[0]);
      WrittenEntriesMean(lib, rest, members[1..]);
      assert RereadMembers(lib, members)[1..] == RereadMembers(lib, members[1..]);
  }

  /** A dict written in any way, after any text without `{` and before any without `}`, is read as its
      reread form. */
  lemma ReadsWriting(lib: Lib, pre: string, t: Tree, v: Value, post: string)
    requires t.Dict? && WellFormed(t) && Writes(lib, t, v)
    requires '{' !in pre && '}' !in post
    ensures ExtractJson(lib, pre + Yield(t) + post) == Some(Reread(lib, v))
  {
    hide Means, Reread, WellFormed, Writes, ExtractJson;
    WrittenMeans(lib, t, v);
    AcceptedIsRead(lib, pre + Yield(t) + post, Reread(lib, v), pre, t, post);
  }

  // ---------------------------------------------------------------- values that survive

  /** A text that reads neither like a literal nor like a number. */
  ghost predicate PlainText(lib: Lib, text: string) { !IsLiteral(text) && NoNumber(lib, text) }

  /** Every string and key is plain, and no dict repeats a key. */
  ghost predicate Stable(lib: Lib, v: Value)
    decreases v, 1
  {
    match v
    case Str(s) => PlainText(lib, s)
    case Arr(items) => ItemsStable(lib, items)
    case Obj(members) => MembersStable(lib, members) && Distinct(members)
    case _ => true
  }

  ghost predicate ItemsStable(lib: Lib, items: seq<Value>)
    decreases items, 0
  {
    items == [] || (Stable(lib, items[0]) && ItemsStable(lib, items[1..]))
  }

  ghost predicate MemberStable(lib: Lib, m: Member)
    decreases m, 2
  {
    m.key.Str? && PlainText(lib, m.key.s) && Stable(lib, m.value)
  }

  ghost predicate MembersStable(lib: Lib, members: seq<Member>)
    decreases members, 0
  {
    members == [] || (MemberStable(lib, members[0]) && MembersStable(lib, members[1..]))
  }

  predicate Distinct(members: seq<Member>) {
    forall i, j :: 0 <= i < j < |members| ==> !KeysEqual(members[i].key, members[j].key)
  }

  lemma PlainStays(lib: Lib, text: string)
    ensures ConvertValue(lib, text) == Str(text) <==> PlainText(lib, text)
  {
    TextIsMeant(lib, text);
    assert TextMeans(lib, text, ConvertValue(lib, text)) && (TextMeans(lib, text, Str(text)) ==> ConvertValue(lib, text) == Str(text));
    hide Spells;
  }

  // ---------------------------------------------------------------- dicts without repeated keys

  lemma {:induction false} FewerKeys(raw: seq<Member>)
    ensures |FirstKeys(raw)| <= |raw|
    ensures |FirstKeys(raw)| == |raw| <==> Distinct(raw)
    ensures Distinct(raw) ==> forall i :: 0 <= i < |raw| ==> FirstKeys(raw)[i] == raw[i].key
  {
    if raw != [] {
      var before, last := raw[..|raw| - 1], |raw| - 1;
      FewerKeys(before);
      hide KeysEqual;
      assert forall i :: 0 <= i < last ==> before[i] == raw[i];
      if Distinct(before) && !HasKey(before, raw[last].key) {
        assert forall i :: 0 <= i < last ==> !KeysEqual(before[i].key, raw[last].key);
      } else if Distinct(before) {
        var i :| 0 <= i < last && KeysEqual(before[i].key, raw[last].key);
        assert KeysEqual(raw[i].key, raw[last].key);
      } else {
        var i, j :| 0 <= i < j < last && KeysEqual(before[i].key, before[j].key);
        assert KeysEqual(raw[i].key, raw[j].key);
      }
    }
  }

  lemma {:induction false} OwnValue(raw: seq<Member>, i: nat)
    requires Distinct(raw) && i < |raw|
    ensures HasKey(raw, raw[i].key) && LastValue(raw, raw[i].key) == raw[i].value
  {
    var before, last := raw[..|raw| - 1], |raw| - 1;
    KeysEquivalent(raw[i].key, raw[i].key, raw[i].key);
    hide KeysEqual;
    assert forall k :: 0 <= k < last ==> before[k] == raw[k];
    if i < last {
      OwnValue(before, i);
      KeysEquivalent(raw[last].key, raw[i].key, raw[last].key);
      assert raw[i] == before[i] && !KeysEqual(raw[i].key, raw[last].key);
    }
  }

  /** Entries stay as they are when they are put into a dict, exactly if no key repeats. */
  lemma DictOfDistinct(raw: seq<Member>)
    ensures |DictOf(raw)| <= |raw|
    ensures |DictOf(raw)| == |raw| <==> Distinct(raw)
    ensures Distinct(raw) ==> DictOf(raw) == raw
  {
    FewerKeys(raw);
    if Distinct(raw) {
      forall i | 0 <= i < |raw| ensures DictOf(raw)[i] == raw[i] { OwnValue(raw, i); }
    }
  }

  // ---------------------------------------------------------------- exactly those survive

  /** Every key is a string, as in text. */
  ghost predicate TextKeys(v: Value)
    decreases v, 1
  {
    match v
    case Arr(items) => ItemsTextKeys(items)
    case Obj(members) => MembersTextKeys(members)
    case _ => true
  }

  ghost predicate ItemsTextKeys(items: seq<Value>)
    decreases items, 0
  {
    items == [] || (TextKeys(items[0]) && ItemsTextKeys(items[1..]))
  }

  ghost predicate MemberTextKeys(m: Member)
    decreases m, 2
  {
    m.key.Str? && TextKeys(m.value)
  }

  ghost predicate MembersTextKeys(members: seq<Member>)
    decreases members, 0
  {
    members == [] || (MemberTextKeys(members[0]) && MembersTextKeys(members[1..]))
  }

  lemma {:induction false} StableStays(lib: Lib, v: Value)
    requires TextKeys(v)
    ensures Reread(lib, v) == v <==> Stable(lib, v)
    decreases v, 1
  {
    if v.Str? { PlainStays(lib, v.s); }
    if v.Arr? { StableItemsStay(lib, v.items); }
    if v.Obj? {
      StableMembersStay(lib, v.members);
      DictOfDistinct(RereadMembers(lib, v.members));
    }
  }

  lemma {:induction false} StableItemsStay(lib: Lib, items: seq<Value>)
    requires ItemsTextKeys(items)
    ensures RereadItems(lib, items) == items <==> ItemsStable(lib, items)
    decreases items, 0
  {
    if items != [] {
      hide Reread, Stable, TextKeys;
      StableStays(lib, items[0]);
      StableItemsStay(lib, items[1..]);
      var r := RereadItems(lib, items);
      assert items == [items[0]] + items[1..];
      assert r[0] == Reread(lib, items[0]) && r[1..] == RereadItems(lib, items[1..]);
    }
  }

  lemma {:induction false} StableMemberStays(lib: Lib, m: Member)
    requires MemberTextKeys(m)
    ensures RereadMember(lib, m) == m <==> MemberStable(lib, m)
    decreases m, 2
  {
    hide Reread, Stable, ConvertValue, PlainText;
    PlainStays(lib, m.key.s);
    StableStays(lib, m.value);
  }

  lemma {:induction false} StableMembersStay(lib: Lib, members: seq<Member>)
    requires MembersTextKeys(members)
    ensures RereadMembers(lib, members) == members <==> MembersStable(lib, members)
    decreases members, 0
  {
    if members != [] {
      hide RereadMember, MemberStable, MemberTextKeys;
      StableMemberStays(lib, members[0]);
      StableMembersStay(lib, members[1..]);
      var r := RereadMembers(lib, members);
      assert members == [members[0]] + members[1..];
      assert r[0] == RereadMember(lib, members[0]) && r[1..] == RereadMembers(lib, members[1..]);
    }
  }

  lemma {:induction false} WrittenKeys(lib: Lib, t: Tree, v: Value)
    requires Writes(lib, t, v)
    ensures TextKeys(v)
  {
    if t.List? { WrittenItemKeys(lib, t.items, v.items); }
    if t.Dict? { WrittenEntryKeys(lib, t.entries, v.members); }
  }

  lemma {:induction false} WrittenItemKeys(lib: Lib, items: Items, vs: seq<Value>)
    requires ItemsWrite(lib, items, vs)
    ensures ItemsTextKeys(vs)
  {
    hide Writes, TextKeys;
    if items.LastItem? { WrittenKeys(lib, items.value, vs[0]); }
    if items.MoreItems? {
      WrittenKeys(lib, items.value, vs[0]);
      WrittenItemKeys(lib, items.rest, vs[1..]);
    }
  }

  lemma {:induction false} WrittenEntryKeys(lib: Lib, entries: Entries, members: seq<Member>)
    requires EntriesWrite(lib, entries, members)
    ensures MembersTextKeys(members)
  {
    hide Writes, TextKeys;
    if entries.LastEntry? { WrittenKeys(lib, entries.entry.value, members[0].value); }
    if entries.MoreEntries? {
      WrittenKeys(lib, entries.entry.value, members[0].value);
      WrittenEntryKeys(lib, entries.rest, members[1..]);
    }
  }

  /** The round trip: a dict written in any way, between any such texts, comes back exactly when it is
      stable. */
  lemma RoundTrip(lib: Lib, pre: string, t: Tree, v: Value, post: string)
    requires t.Dict? && WellFormed(t) && Writes(lib, t, v)
    requires '{' !in pre && '}' !in post
    ensures ExtractJson(lib, pre + Yield(t) + post) == Some(v) <==> Stable(lib, v)
  {
    hide Stable, TextKeys, Reread, ExtractJson, Yield, Writes, WellFormed;
    ReadsWriting(lib, pre, t, v, post);
    WrittenKeys(lib, t, v);
    StableStays(lib, v);
  }

  // ---------------------------------------------------------------- every value can be written

  function PlainPieces(s: string): seq<Piece> {
    seq(|s|, i requires 0 <= i < |s| => if s[i] == '"' || s[i] == '\\' then Escaped(s[i]) else Plain(s[i]))
  }

  /** One way to write a value, given the spelling of its numbers. */
  function TreeOf(v: Value, spell: Value -> string): Tree
    decreases v, 1
  {
    match v
    case Null => Literal("null")
    case Bool(b) => Literal(if b then "true" else "false")
    case Int(_) => Numeral(spell(v))
    case Float(_) => Numeral(spell(v))
    case Str(s) => Quote('"', PlainPieces(s))
    case Arr(items) => List("", ItemsOf(items, spell))
    case Obj(members) => Dict("", EntriesOf(members, spell))
  }

  function ItemsOf(items: seq<Value>, spell: Value -> string): Items
    decreases items, 0
  {
    if items == [] then NoItem else MoreItems(TreeOf(items[0], spell), "", "", ItemsOf(items[1..], spell))
  }

  function EntryOf(m: Member, spell: Value -> string): Entry
    decreases m, 2
  {
    Entry('"', PlainPieces(KeyText(m.key)), "", "", TreeOf(m.value, spell))
  }

  function EntriesOf(members: seq<Member>, spell: Value -> string): Entries
    decreases members, 0
  {
    if members == [] then NoEntry else MoreEntries(EntryOf(members[0], spell), "", "", EntriesOf(members[1..], spell))
  }

  /** Every number of the value is spelled so that it is read back. */
  ghost predicate Spelled(lib: Lib, spell: Value -> string, v: Value)
    decreases v, 1
  {
    match v
    case Int(_) => NumeralText(spell(v)) && NumberMeans(lib, spell(v), v)
    case Float(_) => NumeralText(spell(v)) && NumberMeans(lib, spell(v), v)
    case Arr(items) => ItemsSpelled(lib, spell, items)
    case Obj(members) => MembersSpelled(lib, spell, members)
    case _ => true
  }

  ghost predicate ItemsSpelled(lib: Lib, spell: Value -> string, items: seq<Value>)
    decreases items, 0
  {
    items == [] || (Spelled(lib, spell, items[0]) && ItemsSpelled(lib, spell, items[1..]))
  }

  ghost predicate MembersSpelled(lib: Lib, spell: Value -> string, members: seq<Member>)
    decreases members, 0
  {
    members == [] || (MemberSpelled(lib, spell, members[0]) && MembersSpelled(lib, spell, members[1..]))
  }

  ghost predicate MemberSpelled(lib: Lib, spell: Value -> string, m: Member)
    decreases m, 2
  {
    Spelled(lib, spell, m.value)
  }

  lemma PlainPiecesFit(s: string)
    ensures PiecesFit('"', PlainPieces(s)) && TextOf(PlainPieces(s)) == s
  {
  }

  /** Every value with string keys, its numbers spelled readably, is written by a tree of the grammar. */
  lemma {:induction false} CanBeWritten(lib: Lib, spell: Value -> string, v: Value)
    requires TextKeys(v) && Spelled(lib, spell, v)
    ensures WellFormed(TreeOf(v, spell)) && Writes(lib, TreeOf(v, spell), v)
    decreases v, 1
  {
    if v.Str? { PlainPiecesFit(v.s); }
    if v.Arr? { ItemsCanBeWritten(lib, spell, v.items); }
    if v.Obj? { MembersCanBeWritten(lib, spell, v.members); }
  }

  lemma {:induction false} ItemsCanBeWritten(lib: Lib, spell: Value -> string, items: seq<Value>)
    requires ItemsTextKeys(items) && ItemsSpelled(lib, spell, items)
    ensures WellFormedItems(ItemsOf(items, spell)) && ItemsWrite(lib, ItemsOf(items, spell), items)
    decreases items, 0
  {
    if items != [] {
      hide WellFormed, Writes, TextKeys, Spelled, TreeOf;
      CanBeWritten(lib, spell, items[0]);
      ItemsCanBeWritten(lib, spell, items[1..]);
    }
  }

  lemma {:induction false} MemberCanBeWritten(lib: Lib, spell: Value -> string, m: Member)
    requires MemberTextKeys(m) && MemberSpelled(lib, spell, m)
    ensures WellFormedEntry(EntryOf(m, spell)) && EntryWrites(lib, EntryOf(m, spell), m)
    decreases m, 2
  {
    hide WellFormed, Writes, TextKeys, Spelled, TreeOf;
    PlainPiecesFit(KeyText(m.key));
    CanBeWritten(lib, spell, m.value);
  }

  lemma {:induction false} MembersCanBeWritten(lib: Lib, spell: Value -> string, members: seq<Member>)
    requires MembersTextKeys(members) && MembersSpelled(lib, spell, members)
    ensures WellFormedEntries(EntriesOf(members, spell)) && EntriesWrite(lib, EntriesOf(members, spell), members)
    decreases members, 0
  {
    if members != [] {
      hide WellFormedEntry, EntryWrites, MemberTextKeys, MemberSpelled, EntryOf;
      MemberCanBeWritten(lib, spell, members[0]);
      MembersCanBeWritten(lib, spell, members[1..]);
    }
  }
}

/** The parser's tests and conversions are those of the grammar. */
module JsonMeaning {
  import opened Basics
  import opened Json
  import opened JsonGrammar

  // ---------------------------------------------------------------- characters

  lemma SpaceIsBlank(c: char)
    ensures IsSpace(c) <==> c in " \t\n\r"
  {
    var blanks := " \t\n\r";
    assert blanks[0] == ' ' && blanks[1] == '\t' && blanks[2] == '\n' && blanks[3] == '\r';
  }

  lemma BlankIsSpace(s: string)
    ensures Blank(s) <==> forall i :: 0 <= i < |s| ==> IsSpace(s[i])
  {
    forall i | 0 <= i < |s| ensures IsSpace(s[i]) <==> s[i] in " \t\n\r" { SpaceIsBlank(s[i]); }
  }

  lemma NumberChars(c: char)
    ensures StartsNumber(c) <==> c in "-+0123456789."
    ensures IsNumberChar(c) <==> c in "-+0123456789.eE"
  {
    var a, b := "-+0123456789.", "-+0123456789.eE";
    assert a[0] == '-' && a[1] == '+' && a[2] == '0' && a[3] == '1' && a[4] == '2' && a[5] == '3' && a[6] == '4';
    assert a[7] == '5' && a[8] == '6' && a[9] == '7' && a[10] == '8' && a[11] == '9' && a[12] == '.';
    assert b == a + "eE" && b[13] == 'e' && b[14] == 'E';
    Digits(c);
  }

  lemma Digits(c: char)
    ensures '0' <= c <= '9' <==> c == '0' || c == '1' || c == '2' || c == '3' || c == '4' || c == '5' || c == '6'
                                 || c == '7' || c == '8' || c == '9'
  {
  }

  lemma NumeralChars(s: string)
    ensures NumeralText(s) <==> s != "" && StartsNumber(s[0]) && forall i :: 0 <= i < |s| ==> IsNumberChar(s[i])
  {
    hide StartsNumber, IsNumberChar;
    forall i | 0 <= i < |s|
      ensures (StartsNumber(s[i]) <==> s[i] in "-+0123456789.") && (IsNumberChar(s[i]) <==> s[i] in "-+0123456789.eE")
    {
      NumberChars(s[i]);
    }
  }

  // ---------------------------------------------------------------- words

  predicate LowerCase(word: string) { forall i :: 0 <= i < |word| ==> 'a' <= word[i] <= 'z' }

  lemma LowerSpells(text: string, word: string)
    requires LowerCase(word)
    ensures Lower(text) == word <==> Spells(text, word)
  {
    if Spells(text, word) {
      forall i | 0 <= i < |word| ensures LowerChar(text[i]) == word[i] {
        if text[i] != word[i] { assert 'A' <= text[i] <= 'Z'; }
      }
    } else if Lower(text) == word {
      forall i | 0 <= i < |word| ensures text[i] == word[i] || text[i] as int + 32 == word[i] as int {
        assert Lower(text)[i] == LowerChar(text[i]);
      }
    }
  }

  lemma Words()
    ensures LowerCase("true") && LowerCase("false") && LowerCase("null") && LowerCase("e")
  {
  }

  lemma LowerHasE(text: string)
    ensures 'e' in Lower(text) <==> 'e' in text || 'E' in text
  {
    if 'e' in Lower(text) {
      var i :| 0 <= i < |text| && Lower(text)[i] == 'e';
      assert LowerChar(text[i]) == 'e';
    } else {
      forall i | 0 <= i < |text| ensures text[i] != 'e' && text[i] != 'E' {
        assert Lower(text)[i] == LowerChar(text[i]);
      }
    }
  }

  // ---------------------------------------------------------------- conversions

  lemma NumberIsMeant(lib: Lib, text: string)
    ensures NoNumber(lib, text) <==> Number(lib, text) == None
    ensures forall v :: NumberMeans(lib, text, v) <==> Number(lib, text) == Some(v)
  {
    LowerHasE(text);
  }

  lemma TextIsMeant(lib: Lib, text: string)
    ensures forall v :: TextMeans(lib, text, v) <==> v == ConvertValue(lib, text)
  {
    Words();
    LowerSpells(text, "true");
    LowerSpells(text, "false");
    LowerSpells(text, "null");
    NumberIsMeant(lib, text);
    assert "true"[0] != "null"[0] && |"false"| == 5;
    hide Spells, Number, NumberMeans, NoNumber;
  }

  // ---------------------------------------------------------------- dicts

  lemma SameIsEqual(a: Value, b: Value)
    ensures SameKey(a, b) <==> KeysEqual(a, b)
  {
  }

  lemma KeysEquivalent(a: Value, b: Value, c: Value)
    ensures KeysEqual(a, a) && (KeysEqual(a, b) ==> KeysEqual(b, a))
    ensures KeysEqual(a, b) && KeysEqual(b, c) ==> KeysEqual(a, c)
  {
  }

  lemma OnlyFirst(obj: seq<Member>, key: Value)
    requires obj != [] && KeysEqual(obj[0].key, key)
    requires forall i, j :: 0 <= i < j < |obj| ==> !KeysEqual(obj[i].key, obj[j].key)
    ensures forall j :: 1 <= j < |obj| ==> !KeysEqual(obj[j].key, key)
  {
    hide KeysEqual;
    forall j | 1 <= j < |obj| ensures !KeysEqual(obj[j].key, key) {
      KeysEquivalent(obj[j].key, key, obj[0].key);
      KeysEquivalent(key, obj[j].key, obj[0].key);
      KeysEquivalent(obj[0].key, key, obj[j].key);
      assert !KeysEqual(obj[0].key, obj[j].key);
    }
  }

  /** The dict with the value of this key replaced. */
  ghost predicate Replaced(obj: seq<Member>, put: seq<Member>, key: Value, value: Value) {
    && |put| == |obj|
    && forall j :: 0 <= j < |obj| ==> put[j] == if KeysEqual(obj[j].key, key) then Member(obj[j].key, value) else obj[j]
  }

  lemma ReplacedFirst(obj: seq<Member>, key: Value, value: Value)
    requires obj != [] && KeysEqual(obj[0].key, key)
    requires forall i, j :: 0 <= i < j < |obj| ==> !KeysEqual(obj[i].key, obj[j].key)
    ensures Replaced(obj, [Member(obj[0].key, value)] + obj[1..], key, value)
  {
    hide KeysEqual;
    OnlyFirst(obj, key);
  }

  lemma ReplacedLater(obj: seq<Member>, put: seq<Member>, key: Value, value: Value)
    requires obj != [] && !KeysEqual(obj[0].key, key) && Replaced(obj[1..], put, key, value)
    ensures Replaced(obj, [obj[0]] + put, key, value)
  {
    hide KeysEqual;
    assert forall i :: 0 <= i < |obj| - 1 ==> obj[1..][i] == obj[i + 1];
  }

  lemma {:induction false} PutReplaces(obj: seq<Member>, key: Value, value: Value)
    requires HasKey(obj, key)
    requires forall i, j :: 0 <= i < j < |obj| ==> !KeysEqual(obj[i].key, obj[j].key)
    ensures Replaced(obj, PutMember(obj, key, value), key, value)
  {
    SameIsEqual(obj[0].key, key);
    hide KeysEqual, SameKey, Replaced;
    var rest := obj[1..];
    if SameKey(obj[0].key, key) {
      ReplacedFirst(obj, key, value);
    } else {
      var k :| 0 <= k < |obj| && KeysEqual(obj[k].key, key);
      assert rest[k - 1] == obj[k];
      assert PutMember(obj, key, value) == [obj[0]] + PutMember(rest, key, value);
      hide PutMember;
      PutReplaces(rest, key, value);
      ReplacedLater(obj, PutMember(rest, key, value), key, value);
    }
  }

  lemma {:induction false} PutAdds(obj: seq<Member>, key: Value, value: Value)
    requires !HasKey(obj, key)
    ensures PutMember(obj, key, value) == obj + [Member(key, value)]
  {
    if obj != [] {
      SameIsEqual(obj[0].key, key);
      assert !KeysEqual(obj[0].key, key);
      assert forall i :: 0 <= i < |obj| - 1 ==> obj[1..][i] == obj[i + 1];
      PutAdds(obj[1..], key, value);
      assert obj == [obj[0]] + obj[1..];
    }
  }

  lemma {:induction false} FirstKeysCover(raw: seq<Member>, key: Value)
    requires HasKey(raw, key)
    ensures exists j :: 0 <= j < |FirstKeys(raw)| && KeysEqual(FirstKeys(raw)[j], key)
  {
    var before, m := raw[..|raw| - 1], raw[|raw| - 1];
    assert before + [m] == raw;
    HasKeyAppend(before, m, key);
    hide KeysEqual, HasKey;
    if HasKey(before, key) {
      FirstKeysCover(before, key);
      var j :| 0 <= j < |FirstKeys(before)| && KeysEqual(FirstKeys(before)[j], key);
      assert FirstKeys(raw)[j] == FirstKeys(before)[j];
    } else if HasKey(before, m.key) {
      FirstKeysCover(before, m.key);
      var j :| 0 <= j < |FirstKeys(before)| && KeysEqual(FirstKeys(before)[j], m.key);
      KeysEquivalent(FirstKeys(before)[j], m.key, key);
      assert FirstKeys(raw)[j] == FirstKeys(before)[j];
    } else {
      assert FirstKeys(raw)[|FirstKeys(before)|] == m.key;
    }
  }

  lemma {:induction false} FirstKeysDiffer(raw: seq<Member>, i: nat, j: nat)
    requires i < j < |FirstKeys(raw)|
    ensures !KeysEqual(FirstKeys(raw)[i], FirstKeys(raw)[j])
  {
    var before, m := raw[..|raw| - 1], raw[|raw| - 1];
    var keys := FirstKeys(before);
    if j < |keys| {
      FirstKeysDiffer(before, i, j);
    } else {
      FirstKeysAreKeys(before);
      assert !HasKey(before, m.key) && HasKey(before, keys[i]);
      var k :| 0 <= k < |before| && KeysEqual(before[k].key, keys[i]);
      KeysEquivalent(before[k].key, keys[i], m.key);
    }
  }

  lemma LastOfMore(raw: seq<Member>, m: Member, key: Value)
    requires HasKey(raw, key) || KeysEqual(m.key, key)
    ensures HasKey(raw + [m], key)
    ensures LastValue(raw + [m], key) == if KeysEqual(m.key, key) then m.value else LastValue(raw, key)
  {
    HasKeyAppend(raw, m, key);
    assert (raw + [m])[..|raw|] == raw;
  }

  /** `obj[key] = value` on the dict of the entries so far gives the dict of one entry more. */
  lemma DictOfMore(raw: seq<Member>, m: Member)
    ensures PutMember(DictOf(raw), m.key, m.value) == DictOf(raw + [m])
  {
    var d, keys, all := DictOf(raw), FirstKeys(raw), raw + [m];
    FirstKeysAreKeys(raw);
    assert all[..|raw|] == raw && all[|raw|] == m;
    hide KeysEqual, HasKey, PutMember, LastValue;
    assert FirstKeys(all) == keys + (if HasKey(raw, m.key) then [] else [m.key]);
    forall j | 0 <= j < |keys|
      ensures HasKey(all, keys[j])
      ensures LastValue(all, keys[j]) == if KeysEqual(m.key, keys[j]) then m.value else d[j].value
    {
      LastOfMore(raw, m, keys[j]);
    }
    if HasKey(raw, m.key) {
      assert FirstKeys(all) == keys;
      DictHasKey(raw, m.key);
      forall i, j | 0 <= i < j < |d| ensures !KeysEqual(d[i].key, d[j].key) { FirstKeysDiffer(raw, i, j); }
      PutReplaces(d, m.key, m.value);
      forall j | 0 <= j < |d| ensures PutMember(d, m.key, m.value)[j] == DictOf(all)[j] {
        KeysEquivalent(m.key, keys[j], m.key);
        KeysEquivalent(keys[j], m.key, keys[j]);
      }
    } else {
      NoNewKey(raw, m.key);
      PutAdds(d, m.key, m.value);
      KeysEquivalent(m.key, m.key, m.key);
      LastOfMore(raw, m, m.key);
      forall j | 0 <= j < |keys| ensures !KeysEqual(m.key, keys[j]) {
        if KeysEqual(m.key, keys[j]) {
          KeysEquivalent(m.key, keys[j], m.key);
          NotInDict(raw, m.key, j);
        }
      }
      assert DictOf(all) == d + [m];
    }
  }

  lemma DictHasKey(raw: seq<Member>, key: Value)
    requires HasKey(raw, key)
    ensures HasKey(DictOf(raw), key)
  {
    FirstKeysCover(raw, key);
    var j :| 0 <= j < |FirstKeys(raw)| && KeysEqual(FirstKeys(raw)[j], key);
    assert DictOf(raw)[j].key == FirstKeys(raw)[j];
  }

  lemma NotInDict(raw: seq<Member>, key: Value, j: nat)
    requires !HasKey(raw, key) && j < |FirstKeys(raw)|
    ensures !KeysEqual(FirstKeys(raw)[j], key)
  {
    FirstKeysAreKeys(raw);
    var k :| 0 <= k < |raw| && KeysEqual(raw[k].key, FirstKeys(raw)[j]);
    KeysEquivalent(raw[k].key, FirstKeys(raw)[j], key);
  }

  lemma NoNewKey(raw: seq<Member>, key: Value)
    requires !HasKey(raw, key)
    ensures !HasKey(DictOf(raw), key)
  {
    forall j | 0 <= j < |DictOf(raw)| ensures !KeysEqual(DictOf(raw)[j].key, key) { NotInDict(raw, key, j); }
  }
}

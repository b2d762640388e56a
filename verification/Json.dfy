/**
 The tolerant JSON parser of `extract_json` as mutually recursive functions over a string and a
 position. Every failure the program signals is a ValueError; it is the result Err here.
 */
module Json {
  import opened Basics

  /** Parsed values. A dict is the sequence of its entries in insertion order; a float is a token. */
  datatype Value =
    | Null | Bool(b: bool) | Int(n: int) | Float(token: int) | Str(s: string)
    | Arr(items: seq<Value>) | Obj(members: seq<Member>)

  datatype Member = Member(key: Value, value: Value)

  datatype Parsed<T> = Err | Ok(value: T, pos: nat)

  /** Python's number constructors; None stands for their ValueError. */
  datatype Lib = Lib(pyInt: string -> Option<int>, pyFloat: string -> Option<int>)

  // ---------------------------------------------------------------- characters and numbers

  predicate IsSpace(c: char) { c == ' ' || c == '\t' || c == '\n' || c == '\r' }

  predicate IsNumberChar(c: char) { StartsNumber(c) || c == 'e' || c == 'E' }

  predicate StartsNumber(c: char) { c == '-' || c == '+' || '0' <= c <= '9' || c == '.' }

  predicate IsQuote(c: char) { c == '"' || c == '\'' }

  function LowerChar(c: char): char {
    if 'A' <= c <= 'Z' then (c as int + 32) as char else c
  }

  function Lower(s: string): (r: string)
    ensures |r| == |s|
  {
    seq(|s|, i requires 0 <= i < |s| => LowerChar(s[i]))
  }

  // Python's slice, which stops at the end of the string.
  function Slice(s: string, from: nat, n: nat): string
    requires from <= |s|
  {
    if from + n <= |s| then s[from..from + n] else s[from..]
  }

  /** The common tail of `convert_value` and `parse_number`: int or float, by the characters. */
  function Number(lib: Lib, text: string): Option<Value> {
    if '.' in text || 'e' in Lower(text) then
      (match lib.pyFloat(text) case None => None case Some(f) => Some(Float(f)))
    else
      (match lib.pyInt(text) case None => None case Some(n) => Some(Int(n)))
  }

  function ConvertValue(lib: Lib, text: string): Value {
    var lower := Lower(text);
    if lower == "true" then Bool(true)
    else if lower == "false" then Bool(false)
    else if lower == "null" then Null
    else match Number(lib, text) case Some(v) => v case None => Str(text)
  }

  // ---------------------------------------------------------------- scanning

  function SkipWhitespace(s: string, pos: nat): (r: nat)
    requires pos <= |s|
    ensures pos <= r <= |s|
    ensures forall i :: pos <= i < r ==> IsSpace(s[i])
    ensures r < |s| ==> !IsSpace(s[r])
    decreases |s| - pos
  {
    if pos < |s| && IsSpace(s[pos]) then SkipWhitespace(s, pos + 1) else pos
  }

  function SkipNumber(s: string, pos: nat): (r: nat)
    requires pos <= |s|
    ensures pos <= r <= |s|
    ensures forall i :: pos <= i < r ==> IsNumberChar(s[i])
    ensures r < |s| ==> !IsNumberChar(s[r])
    decreases |s| - pos
  {
    if pos < |s| && IsNumberChar(s[pos]) then SkipNumber(s, pos + 1) else pos
  }

  function ParseNumber(lib: Lib, s: string, pos: nat): (r: Parsed<Value>)
    requires pos < |s| && StartsNumber(s[pos])
    ensures r.Ok? ==> pos < r.pos <= |s|
  {
    var end := SkipNumber(s, pos);
    match Number(lib, s[pos..end])
    case None => Err
    case Some(v) => assert IsNumberChar(s[pos]); Ok(v, end)
  }

  function Unescape(c: char): char {
    match c
    case 'n' => '\n'
    case 't' => '\t'
    case 'r' => '\r'
    case _ => c
  }

  /** The loop of `parse_string` after the opening quote. */
  function StringBody(s: string, pos: nat, quote: char, result: string): (r: Parsed<string>)
    requires pos <= |s|
    ensures r.Ok? ==> pos < r.pos <= |s|
    decreases |s| - pos
  {
    if pos >= |s| then Err
    else if s[pos] == '\\' then
      if pos + 1 >= |s| then Err else StringBody(s, pos + 2, quote, result + [Unescape(s[pos + 1])])
    else if s[pos] == quote then Ok(result, pos + 1)
    else StringBody(s, pos + 1, quote, result + [s[pos]])
  }

  function ParseString(lib: Lib, s: string, pos: nat): (r: Parsed<Value>)
    requires pos < |s| && IsQuote(s[pos])
    ensures r.Ok? ==> pos < r.pos <= |s|
  {
    match StringBody(s, pos + 1, s[pos], "")
    case Err => Err
    case Ok(text, end) => Ok(ConvertValue(lib, text), end)
  }

  /** The loop of `parse_triple_quoted_string` after the opening quotes. */
  function TripleBody(s: string, pos: nat, quotes: string, result: string): (r: Parsed<string>)
    requires pos <= |s| && |quotes| == 3
    ensures r.Ok? ==> pos < r.pos <= |s|
    decreases |s| - pos
  {
    if pos >= |s| then Err
    else if Slice(s, pos, 3) == quotes then Ok(result, pos + 3)
    else TripleBody(s, pos + 1, quotes, result + [s[pos]])
  }

  predicate StartsTriple(s: string, pos: nat)
    requires pos <= |s|
  {
    Slice(s, pos, 3) == "'''" || Slice(s, pos, 3) == "\"\"\""
  }

  function ParseTriple(lib: Lib, s: string, pos: nat): (r: Parsed<Value>)
    requires pos <= |s| && StartsTriple(s, pos)
    ensures r.Ok? ==> pos < r.pos <= |s|
  {
    match TripleBody(s, pos + 3, Slice(s, pos, 3), "")
    case Err => Err
    case Ok(text, end) => Ok(ConvertValue(lib, text), end)
  }

  // ---------------------------------------------------------------- dicts

  /** Python's equality on keys, as far as bool and int mix. */
  predicate SameKey(a: Value, b: Value) {
    a == b || (AsInt(a).Some? && AsInt(a) == AsInt(b))
  }

  function AsInt(v: Value): Option<int> {
    match v
    case Bool(b) => Some(if b then 1 else 0)
    case Int(n) => Some(n)
    case _ => None
  }

  /** `obj[key] = value`: an equal key keeps its place and its first spelling. */
  function PutMember(obj: seq<Member>, key: Value, value: Value): seq<Member> {
    if obj == [] then [Member(key, value)]
    else if SameKey(obj[0].key, key) then [Member(obj[0].key, value)] + obj[1..]
    else [obj[0]] + PutMember(obj[1..], key, value)
  }

  // ---------------------------------------------------------------- the recursive descent

  /** What follows an element: a comma and the start of the next one, or the closing bracket. */
  datatype Next = More(pos: nat) | Close(pos: nat) | Neither

  function Separator(s: string, pos: nat, close: char): (r: Next)
    requires pos <= |s|
    ensures !r.Neither? ==> pos < r.pos <= |s|
    ensures r.More? && r.pos < |s| ==> !IsSpace(s[r.pos])
  {
    var p := SkipWhitespace(s, pos);
    if p >= |s| then Neither
    else if s[p] == ',' then More(SkipWhitespace(s, p + 1))
    else if s[p] == close then Close(p + 1)
    else Neither
  }

  /** Key, colon and value; `pos` stands on no whitespace, so `s[pos]` is never out of range. */
  function ParseMember(lib: Lib, s: string, pos: nat): (r: Parsed<Member>)
    requires pos < |s| && !IsSpace(s[pos])
    ensures r.Ok? ==> pos < r.pos <= |s|
    decreases |s| - pos, 3
  {
    if !IsQuote(s[pos]) then Err
    else match ParseString(lib, s, pos)
      case Err => Err
      case Ok(key, p1) =>
        var p2 := SkipWhitespace(s, p1);
        if p2 >= |s| || s[p2] != ':' then Err
        else match ParseValue(lib, s, SkipWhitespace(s, p2 + 1))
          case Err => Err
          case Ok(value, p3) => Ok(Member(key, value), p3)
  }

  /** The loop of `parse_object`. */
  function ParseMembers(lib: Lib, s: string, pos: nat, obj: seq<Member>): (r: Parsed<Value>)
    requires pos <= |s| && (pos < |s| ==> !IsSpace(s[pos]))
    ensures r.Ok? ==> pos < r.pos <= |s|
    decreases |s| - pos, 4
  {
    if pos >= |s| then Err
    else if s[pos] == '}' then Ok(Obj(obj), pos + 1)
    else match ParseMember(lib, s, pos)
      case Err => Err
      case Ok(m, p) =>
        match Separator(s, p, '}')
        case More(next) => ParseMembers(lib, s, next, PutMember(obj, m.key, m.value))
        case Close(end) => Ok(Obj(PutMember(obj, m.key, m.value)), end)
        case Neither => Err
  }

  /** The loop of `parse_array`. */
  function ParseItems(lib: Lib, s: string, pos: nat, items: seq<Value>): (r: Parsed<Value>)
    requires pos <= |s|
    ensures r.Ok? ==> pos < r.pos <= |s|
    decreases |s| - pos, 4
  {
    if pos >= |s| then Err
    else if s[pos] == ']' then Ok(Arr(items), pos + 1)
    else match ParseValue(lib, s, pos)
      case Err => Err
      case Ok(value, p) =>
        match Separator(s, p, ']')
        case More(next) => ParseItems(lib, s, next, items + [value])
        case Close(end) => Ok(Arr(items + [value]), end)
        case Neither => Err
  }

  function ParseValue(lib: Lib, s: string, start: nat): (r: Parsed<Value>)
    requires start <= |s|
    ensures r.Ok? ==> start < r.pos <= |s|
    decreases |s| - start, 2
  {
    var pos := SkipWhitespace(s, start);
    if pos >= |s| then Err
    else if s[pos] == '{' then ParseMembers(lib, s, SkipWhitespace(s, pos + 1), [])
    else if s[pos] == '[' then ParseItems(lib, s, SkipWhitespace(s, pos + 1), [])
    else if StartsTriple(s, pos) then ParseTriple(lib, s, pos)
    else if IsQuote(s[pos]) then ParseString(lib, s, pos)
    else if Lower(Slice(s, pos, 4)) == "true" then Ok(Bool(true), pos + 4)
    else if Lower(Slice(s, pos, 5)) == "false" then Ok(Bool(false), pos + 5)
    else if Lower(Slice(s, pos, 4)) == "null" then Ok(Null, pos + 4)
    else if StartsNumber(s[pos]) then ParseNumber(lib, s, pos)
    else Err
  }

  // ---------------------------------------------------------------- the entry point

  function IndexOf(s: string, c: char): (r: Option<nat>)
    ensures r.Some? ==> r.value < |s| && s[r.value] == c && c !in s[..r.value]
    ensures r.None? ==> c !in s
  {
    if s == [] then None
    else if s[0] == c then Some(0)
    else match IndexOf(s[1..], c) case None => None case Some(i) => Some(i + 1)
  }

  function LastIndexOf(s: string, c: char): (r: Option<nat>)
    ensures r.Some? ==> r.value < |s| && s[r.value] == c && c !in s[r.value + 1..]
    ensures r.None? ==> c !in s
  {
    if s == [] then None
    else if s[|s| - 1] == c then Some(|s| - 1)
    else LastIndexOf(s[..|s| - 1], c)
  }

  /** The text between the first `{` and the last `}`; it starts and ends with a brace, so the
      `strip` that follows in the source changes nothing. */
  function Body(s: string): Option<string> {
    match IndexOf(s, '{')
    case None => None
    case Some(start) =>
      match LastIndexOf(s, '}')
      case None => Some("")
      case Some(end) => Some(if start <= end then s[start..end + 1] else "")
  }

  function ExtractJson(lib: Lib, s: string): Option<Value> {
    match Body(s)
    case None => None
    case Some(body) =>
      match ParseValue(lib, body, 0)
      case Err => None
      case Ok(value, pos) => if SkipWhitespace(body, pos) == |body| then Some(value) else None
  }
}

/** The parser as the program writes it, with loops that move a position; each method equals its
    function in `Json`. */
module JsonLoops {
  import opened Basics
  import opened Json

  method SkipSpaces(s: string, start: nat) returns (pos: nat)
    requires start <= |s|
    ensures pos == SkipWhitespace(s, start)
  {
    pos := start;
    while pos < |s| && IsSpace(s[pos])
      invariant start <= pos <= |s| && SkipWhitespace(s, pos) == SkipWhitespace(s, start)
    {
      pos := pos + 1;
    }
  }

  method ReadNumber(lib: Lib, s: string, start: nat) returns (r: Parsed<Value>)
    requires start < |s| && StartsNumber(s[start])
    ensures r == ParseNumber(lib, s, start)
  {
    var pos := start;
    while pos < |s| && IsNumberChar(s[pos])
      invariant start <= pos <= |s| && SkipNumber(s, pos) == SkipNumber(s, start)
    {
      pos := pos + 1;
    }
    match Number(lib, s[start..pos]) {
      case None => r := Err;
      case Some(v) => r := Ok(v, pos);
    }
  }

  method ReadString(lib: Lib, s: string, start: nat) returns (r: Parsed<Value>)
    requires start < |s| && IsQuote(s[start])
    ensures r == ParseString(lib, s, start)
  {
    var quote := s[start];
    var pos, result := start + 1, "";
    while pos < |s|
      invariant start < pos <= |s|
      invariant StringBody(s, pos, quote, result) == StringBody(s, start + 1, quote, "")
    {
      var c := s[pos];
      if c == '\\' {
        pos := pos + 1;
        if pos >= |s| {
          return Err;
        }
        result := result + [Unescape(s[pos])];
      } else if c == quote {
        return Ok(ConvertValue(lib, result), pos + 1);
      } else {
        result := result + [c];
      }
      pos := pos + 1;
    }
    r := Err;
  }

  method ReadTriple(lib: Lib, s: string, start: nat) returns (r: Parsed<Value>)
    requires start <= |s| && StartsTriple(s, start)
    ensures r == ParseTriple(lib, s, start)
  {
    var quotes := Slice(s, start, 3);
    var pos, result := start + 3, "";
    while pos < |s|
      invariant start < pos <= |s|
      invariant TripleBody(s, pos, quotes, result) == TripleBody(s, start + 3, quotes, "")
    {
      if Slice(s, pos, 3) == quotes {
        return Ok(ConvertValue(lib, result), pos + 3);
      }
      result := result + [s[pos]];
      pos := pos + 1;
    }
    r := Err;
  }

  method ReadSeparator(s: string, start: nat, close: char) returns (r: Next)
    requires start <= |s|
    ensures r == Separator(s, start, close)
  {
    var pos := SkipSpaces(s, start);
    if pos < |s| && s[pos] == ',' {
      var next := SkipSpaces(s, pos + 1);
      r := More(next);
    } else if pos < |s| && s[pos] == close {
      r := Close(pos + 1);
    } else {
      r := Neither;
    }
  }

  method ReadMember(lib: Lib, s: string, pos: nat) returns (r: Parsed<Member>)
    requires pos < |s| && !IsSpace(s[pos])
    ensures r == ParseMember(lib, s, pos)
    decreases |s| - pos, 3
  {
    hide SkipWhitespace, ParseString, ParseValue, IsSpace, IsQuote;
    if !IsQuote(s[pos]) {
      return Err;
    }
    var key := ReadString(lib, s, pos);
    if key.Err? {
      return Err;
    }
    var colon := SkipSpaces(s, key.pos);
    if colon >= |s| || s[colon] != ':' {
      return Err;
    }
    var from := SkipSpaces(s, colon + 1);
    var value := ReadValue(lib, s, from);
    if value.Err? {
      return Err;
    }
    r := Ok(Member(key.value, value.value), value.pos);
  }

  method ReadObject(lib: Lib, s: string, start: nat) returns (r: Parsed<Value>)
    requires start < |s| && s[start] == '{'
    ensures r == ParseMembers(lib, s, SkipWhitespace(s, start + 1), [])
    decreases |s| - start, 1
  {
    var obj := [];
    var pos := SkipSpaces(s, start + 1);
    ghost var goal := ParseMembers(lib, s, pos, []);
    while pos < |s| && s[pos] != '}'
      invariant start < pos <= |s| && (pos < |s| ==> !IsSpace(s[pos]))
      invariant ParseMembers(lib, s, pos, obj) == goal
      decreases |s| - pos
    {
      var m := ReadMember(lib, s, pos);
      if m.Err? {
        return Err;
      }
      obj := PutMember(obj, m.value.key, m.value.value);
      var next := ReadSeparator(s, m.pos, '}');
      match next {
        case More(p) => pos := p;
        case Close(p) => return Ok(Obj(obj), p);
        case Neither => return Err;
      }
    }
    r := if pos >= |s| then Err else Ok(Obj(obj), pos + 1);
  }

  method ReadArray(lib: Lib, s: string, start: nat) returns (r: Parsed<Value>)
    requires start < |s| && s[start] == '['
    ensures r == ParseItems(lib, s, SkipWhitespace(s, start + 1), [])
    decreases |s| - start, 1
  {
    var items := [];
    var pos := SkipSpaces(s, start + 1);
    ghost var goal := ParseItems(lib, s, pos, []);
    while pos < |s| && s[pos] != ']'
      invariant start < pos <= |s|
      invariant ParseItems(lib, s, pos, items) == goal
      decreases |s| - pos
    {
      var value := ReadValue(lib, s, pos);
      if value.Err? {
        return Err;
      }
      items := items + [value.value];
      var next := ReadSeparator(s, value.pos, ']');
      match next {
        case More(p) => pos := p;
        case Close(p) => return Ok(Arr(items), p);
        case Neither => return Err;
      }
    }
    r := if pos >= |s| then Err else Ok(Arr(items), pos + 1);
  }

  method ReadValue(lib: Lib, s: string, start: nat) returns (r: Parsed<Value>)
    requires start <= |s|
    ensures r == ParseValue(lib, s, start)
    decreases |s| - start, 2
  {
    var pos := SkipSpaces(s, start);
    if pos >= |s| {
      r := Err;
    } else if s[pos] == '{' {
      r := ReadObject(lib, s, pos);
    } else if s[pos] == '[' {
      r := ReadArray(lib, s, pos);
    } else if StartsTriple(s, pos) {
      r := ReadTriple(lib, s, pos);
    } else if IsQuote(s[pos]) {
      r := ReadString(lib, s, pos);
    } else if Lower(Slice(s, pos, 4)) == "true" {
      r := Ok(Bool(true), pos + 4);
    } else if Lower(Slice(s, pos, 5)) == "false" {
      r := Ok(Bool(false), pos + 5);
    } else if Lower(Slice(s, pos, 4)) == "null" {
      r := Ok(Null, pos + 4);
    } else if StartsNumber(s[pos]) {
      r := ReadNumber(lib, s, pos);
    } else {
      r := Err;
    }
  }

  method Extract(lib: Lib, s: string) returns (r: Option<Value>)
    ensures r == ExtractJson(lib, s)
  {
    match Body(s) {
      case None => r := None;
      case Some(body) =>
        var value := ReadValue(lib, body, 0);
        if value.Err? {
          return None;
        }
        var end := SkipSpaces(body, value.pos);
        r := if end == |body| then Some(value.value) else None;
    }
  }
}

/** The bounded JSON reader as the object it is: a position and a value count that its methods advance. */
module JsonParser {
  import opened Results
  import opened Ascii
  import opened Bytes
  import opened Decimals
  import opened Utf8
  import opened JsonGrammar
  import opened JsonReader
  import JsonTheorems

  class Parser {
    const input: bytes
    const env: Env
    var position: nat
    var values: nat

    constructor (input: bytes, env: Env)
      ensures this.input == input && this.env == env && position == 0 && values == 0
    {
      this.input := input;
      this.env := env;
      position := 0;
      values := 0;
    }

    ghost predicate Valid()
      reads this
    {
      position <= |input|
    }

    /** A method's outcome is that of the corresponding function, and so is where it leaves the parser. */
    ghost predicate Agrees<T(!new)>(expected: Read<T>, r: Result<T>, counted: bool)
      reads this
    {
      match expected
      case Failed(e) => r == Err(e)
      case Got(v, p, n) => r == Ok(v) && position == p && (counted ==> values == n)
    }

    /** The whole of `run`: exactly the texts of the grammar are accepted, with their meaning. */
    method Run() returns (r: Result<Value>)
      requires position == 0 && values == 0
      modifies this
      ensures r == Parse(input, env)
      ensures forall v :: r == Ok(v) <==> Means(input, env, v)
    {
      forall v ensures Parse(input, env) == Ok(v) <==> Means(input, env, v) {
        JsonTheorems.ParseExact(input, env, v);
      }
      if |input| > env.maximumBytes {
        return Err(PayloadTooLarge);
      }
      if |input| == 0 {
        return Err(InvalidJson);
      }
      var utf8 := IsValidUtf8(input);
      if !utf8 {
        return Err(ErrorCode.InvalidUtf8);
      }
      r := ParseValue(0);
      if r.Err? {
        return;
      }
      SkipWhitespace();
      if position != |input| {
        return Err(InvalidJson);
      }
    }

    method SkipWhitespace()
      requires Valid()
      modifies `position
      ensures Valid() && position == SkipBlank(input, old(position))
    {
      while position < |input|
        invariant Valid() && SkipBlank(input, old(position)) == SkipBlank(input, position)
      {
        var c := input[position];
        if c != 0x20 && c != 0x09 && c != 0x0D && c != 0x0A {
          break;
        }
        position := position + 1;
      }
    }

    /** The recursion is measured by nesting alone: it never goes deeper than `maximumDepth`. */
    method ParseValue(depth: nat) returns (r: Result<Value>)
      requires Valid()
      modifies this
      ensures Valid()
      ensures Agrees(ReadValue(input, old(position), depth, old(values), env), r, true)
      decreases env.maximumDepth - depth, 0
    {
      SkipWhitespace();
      if depth > env.maximumDepth {
        return Err(PayloadTooLarge);
      }
      if position >= |input| {
        return Err(InvalidJson);
      }
      if values >= env.maximumValues {
        return Err(PayloadTooLarge);
      }
      values := values + 1;
      var c := input[position];
      if c == OPEN_BRACE {
        if depth >= env.maximumDepth {
          return Err(PayloadTooLarge);
        }
        r := ParseObject(depth + 1);
      } else if c == OPEN_BRACKET {
        if depth >= env.maximumDepth {
          return Err(PayloadTooLarge);
        }
        r := ParseArray(depth + 1);
      } else if c == QUOTE {
        var text := ParseString();
        r := if text.Ok? then Ok(Text(text.value)) else Err(text.error);
      } else if c == 0x74 {
        r := ParseLiteral(TRUE_TEXT, Boolean(true));
      } else if c == 0x66 {
        r := ParseLiteral(FALSE_TEXT, Boolean(false));
      } else if c == 0x6E {
        r := ParseLiteral(NULL_TEXT, Null);
      } else {
        r := ParseNumber();
      }
    }

    method ParseLiteral(literal: bytes, value: Value) returns (r: Result<Value>)
      requires Valid() && literal != []
      modifies `position
      ensures Valid()
      ensures Agrees(ReadLiteral(input, old(position), values, literal, value), r, true)
    {
      if position + |literal| > |input| || input[position..position + |literal|] != literal {
        return Err(InvalidJson);
      }
      position := position + |literal|;
      return Ok(value);
    }

    method ParseString() returns (r: Result<bytes>)
      requires position < |input|
      modifies `position
      ensures Valid()
      ensures Agrees(ReadString(input, old(position), env.maximumStringBytes), r, false)
    {
      var first := input[position];
      position := position + 1;
      if first != QUOTE {
        return Err(InvalidJson);
      }
      var output: bytes := [];
      ghost var limit := env.maximumStringBytes;
      ghost var expected := ReadChars(input, position, [], limit);
      while position < |input|
        invariant Valid() && expected == ReadChars(input, position, output, limit)
        decreases |input| - position
      {
        var c := input[position];
        position := position + 1;
        if c == QUOTE {
          var utf8 := IsValidUtf8(output);
          if |output| > env.maximumStringBytes || !utf8 {
            return Err(PayloadTooLarge);
          }
          return Ok(output);
        }
        if c < 0x20 {
          return Err(InvalidJson);
        }
        if c != BACKSLASH {
          output := output + [c];
          continue;
        }
        var more := ParseEscape();
        if more.Err? {
          return Err(more.error);
        }
        output := output + more.value;
        if |output| > env.maximumStringBytes {
          return Err(PayloadTooLarge);
        }
      }
      return Err(InvalidJson);
    }

    /** What follows a backslash: the octets to append. */
    method ParseEscape() returns (r: Result<bytes>)
      requires Valid()
      modifies `position
      ensures Valid()
      ensures Agrees(ReadEscape(input, old(position)), r, false)
      ensures r.Ok? ==> position > old(position)
    {
      hide Encode, Hex4, IsHex4, ReadHex, SurrogatePair;
      if position >= |input| {
        return Err(InvalidJson);
      }
      var escaped := input[position];
      position := position + 1;
      if escaped != LETTER_U {
        hide Unescape;
        var simple := Unescape(escaped);
        return if simple.Some? then Ok([simple.value]) else Err(InvalidJson);
      }
      var code := ParseHexCodeUnit();
      if code.Err? {
        return Err(code.error);
      }
      var scalar := code.value;
      if 0xD800 <= scalar <= 0xDBFF {
        if position + 2 > |input| || input[position..position + 2] != [BACKSLASH, LETTER_U] {
          return Err(InvalidJson);
        }
        position := position + 2;
        var low := ParseHexCodeUnit();
        if low.Err? || low.value < 0xDC00 || low.value > 0xDFFF {
          return Err(InvalidJson);
        }
        scalar := SurrogatePair(scalar, low.value);
      } else if 0xDC00 <= scalar <= 0xDFFF {
        return Err(InvalidJson);
      }
      var output := AppendUtf8([], scalar);
      assert output == Encode(scalar);
      return Ok(output);
    }

    method ParseHexCodeUnit() returns (r: Result<nat>)
      requires Valid()
      modifies `position
      ensures Valid()
      ensures match ReadHex(input, old(position))
              case None => r == Err(InvalidJson)
              case Some(v) => r == Ok(v) && position == old(position) + 4
    {
      if position + 4 > |input| {
        return Err(InvalidJson);
      }
      var value: nat := 0;
      ghost var h := input[position..position + 4];
      for i := 0 to 4
        invariant position == old(position) + i
        invariant forall j :: 0 <= j < i ==> IsHex(h[j])
        invariant value == HexPrefix(h, i)
      {
        var c := input[position];
        assert c == h[i];
        position := position + 1;
        if !IsHex(c) {
          return Err(InvalidJson);
        }
        value := value * 16 + HexDigit(c);
      }
      HexPrefixAll(h);
      return Ok(value);
    }

    static method AppendUtf8(output: bytes, scalar: nat) returns (r: bytes)
      requires IsScalar(scalar)
      ensures r == output + Encode(scalar)
      ensures Utf8.Valid(output) ==> Utf8.Valid(r)
    {
      r := output;
      if scalar <= 0x7F {
        r := r + [scalar];
      } else if scalar <= 0x7FF {
        r := r + [0xC0 + scalar / 64];
        r := r + [0x80 + scalar % 64];
      } else if scalar <= 0xFFFF {
        r := r + [0xE0 + scalar / 4096];
        r := r + [0x80 + scalar / 64 % 64];
        r := r + [0x80 + scalar % 64];
      } else {
        r := r + [0xF0 + scalar / 262144];
        r := r + [0x80 + scalar / 4096 % 64];
        r := r + [0x80 + scalar / 64 % 64];
        r := r + [0x80 + scalar % 64];
      }
      EncodeValid(scalar);
      if Utf8.Valid(output) {
        ValidConcat(output, Encode(scalar));
      }
    }

    method ParseObject(depth: nat) returns (r: Result<Value>)
      requires position < |input| && depth <= env.maximumDepth
      modifies this
      ensures Valid()
      ensures Agrees(ReadObject(input, old(position), depth, old(values), env), r, true)
      decreases env.maximumDepth - depth, 1
    {
      hide SkipBlank, ReadString, ReadValue, ReadMembers, IsBlank, AllBlank;
      position := position + 1;
      var members: map<bytes, Value> := map[];
      SkipWhitespace();
      if position < |input| && input[position] == CLOSE_BRACE {
        position := position + 1;
        return Ok(Object(members));
      }
      ghost var expected := ReadMembers(input, position, depth, values, env, map[]);
      assert ReadObject(input, old(position), depth, old(values), env) == expected;
      hide ReadObject;
      while true
        invariant Valid() && expected == ReadMembers(input, position, depth, values, env, members)
        decreases |input| - position
      {
        ghost var p, n := position, values;
        SkipWhitespace();
        ghost var q := position;
        KeyStage(input, p, depth, n, env, members, q);
        if position >= |input| || input[position] != QUOTE {
          return Err(InvalidJson);
        }
        var key := ParseString();
        if key.Err? {
          return Err(key.error);
        }
        ghost var keyRead := ReadString(input, q, env.maximumStringBytes);
        SkipWhitespace();
        ghost var atColon := position;
        if position >= |input| {
          ColonStage(input, p, depth, n, env, members, q, keyRead, atColon);
          return Err(InvalidJson);
        }
        var colon := input[position];
        position := position + 1;
        if colon != COLON {
          ColonStage(input, p, depth, n, env, members, q, keyRead, atColon);
          return Err(InvalidJson);
        }
        var value := ParseValue(depth);
        ghost var valueRead := ReadValue(input, atColon + 1, depth, n, env);
        ValueStage(input, p, depth, n, env, members, q, keyRead, atColon, valueRead);
        if value.Err? {
          return value;
        }
        if key.value in members {
          return Err(InvalidJson);
        }
        SkipWhitespace();
        SeparatorStage(input, p, depth, n, env, members, q, keyRead, atColon, valueRead, position);
        members := members[key.value := value.value];
        if position >= |input| {
          return Err(InvalidJson);
        }
        var separator := input[position];
        position := position + 1;
        if separator == CLOSE_BRACE {
          break;
        }
        if separator != COMMA {
          return Err(InvalidJson);
        }
      }
      return Ok(Object(members));
    }

    method ParseArray(depth: nat) returns (r: Result<Value>)
      requires position < |input| && depth <= env.maximumDepth
      modifies this
      ensures Valid()
      ensures Agrees(ReadArray(input, old(position), depth, old(values), env), r, true)
      decreases env.maximumDepth - depth, 1
    {
      hide SkipBlank, ReadValue, ReadItems, IsBlank, AllBlank;
      position := position + 1;
      var items: seq<Value> := [];
      SkipWhitespace();
      if position < |input| && input[position] == CLOSE_BRACKET {
        position := position + 1;
        return Ok(Array(items));
      }
      ghost var expected := ReadItems(input, position, depth, values, env, []);
      while true
        invariant Valid() && expected == ReadItems(input, position, depth, values, env, items)
        decreases |input| - position
      {
        ghost var p, n := position, values;
        ghost var valueRead := ReadValue(input, p, depth, n, env);
        var value := ParseValue(depth);
        if value.Err? {
          ItemFails(input, p, depth, n, env, items);
          return value;
        }
        SkipWhitespace();
        ItemStage(input, p, depth, n, env, items, valueRead, position);
        items := items + [value.value];
        if position >= |input| {
          return Err(InvalidJson);
        }
        var separator := input[position];
        position := position + 1;
        if separator == CLOSE_BRACKET {
          break;
        }
        if separator != COMMA {
          return Err(InvalidJson);
        }
      }
      return Ok(Array(items));
    }

    method SkipDecimal()
      requires Valid()
      modifies `position
      ensures Valid() && position == SkipDigits(input, old(position))
    {
      while position < |input| && IsDigit(input[position])
        invariant Valid() && SkipDigits(input, old(position)) == SkipDigits(input, position)
      {
        position := position + 1;
      }
    }

    /** The integer part of a number. */
    method SkipWhole() returns (ok: bool)
      requires Valid()
      modifies `position
      ensures Valid()
      ensures WholeEnd(input, old(position)) == if ok then Some(position) else None
    {
      if position >= |input| {
        return false;
      }
      if input[position] == ZERO {
        position := position + 1;
      } else {
        if input[position] < 0x31 || input[position] > 0x39 {
          return false;
        }
        SkipDecimal();
      }
      return true;
    }

    /** The optional fraction; `present` says whether there is one. */
    method SkipFraction() returns (ok: bool, present: bool)
      requires Valid()
      modifies `position
      ensures Valid() && (ok && !present ==> position == old(position)) && (ok && present ==> position > old(position))
      ensures FractionEnd(input, old(position)) == if ok then Some(position) else None
    {
      present := position < |input| && input[position] == DOT;
      if present {
        position := position + 1;
        var fraction := position;
        SkipDecimal();
        if fraction == position {
          return false, present;
        }
      }
      return true, present;
    }

    /** The optional exponent. */
    method SkipExponent() returns (ok: bool, present: bool)
      requires Valid()
      modifies `position
      ensures Valid() && (ok && !present ==> position == old(position)) && (ok && present ==> position > old(position))
      ensures ExponentEnd(input, old(position)) == if ok then Some(position) else None
    {
      present := position < |input| && (input[position] == 0x65 || input[position] == 0x45);
      if present {
        position := position + 1;
        if position < |input| && (input[position] == PLUS || input[position] == MINUS) {
          position := position + 1;
        }
        var exponent := position;
        SkipDecimal();
        if exponent == position {
          return false, present;
        }
      }
      return true, present;
    }

    method ParseNumber() returns (r: Result<Value>)
      requires Valid()
      modifies `position
      ensures Valid()
      ensures Agrees(ReadNumber(input, old(position), values, env), r, true)
    {
      hide WholeEnd, FractionEnd, ExponentEnd, AllDigits, ToInteger;
      var start := position;
      if position < |input| && input[position] == MINUS {
        position := position + 1;
      }
      ghost var whole := position;
      var ok := SkipWhole();
      if !ok {
        return Err(InvalidJson);
      }
      ghost var w := position;
      var fraction, exponent: bool;
      ok, fraction := SkipFraction();
      if !ok {
        return Err(InvalidJson);
      }
      ok, exponent := SkipExponent();
      if !ok {
        return Err(InvalidJson);
      }
      var text := input[start..position];
      if !fraction && !exponent {
        SignedDigits(input, start, whole, position);
        var value := ToInteger(text);
        return if value.Some? then Ok(Integer(value.value)) else Err(InvalidJson);
      }
      var bits := env.toDouble(text);
      return if bits.Some? then Ok(Number(bits.value)) else Err(InvalidJson);
    }
  }

  lemma ItemFails(s: bytes, p: nat, depth: nat, n: nat, env: Env, items: seq<Value>)
    requires p <= |s| && ReadValue(s, p, depth, n, env).Failed?
    ensures ReadItems(s, p, depth, n, env, items) == Failed(ReadValue(s, p, depth, n, env).error)
  {
    hide SkipBlank, ReadValue;
  }

  /** What `ReadItems` does after an element. */
  lemma ItemStage(s: bytes, p: nat, depth: nat, n: nat, env: Env, items: seq<Value>, value: Read<Value>, separator: nat)
    requires p <= |s| && value == ReadValue(s, p, depth, n, env) && value.Got? && separator == SkipBlank(s, value.pos)
    ensures separator >= |s| || (s[separator] != CLOSE_BRACKET && s[separator] != COMMA) ==>
              ReadItems(s, p, depth, n, env, items) == Failed(InvalidJson)
    ensures separator < |s| && s[separator] == CLOSE_BRACKET ==>
              ReadItems(s, p, depth, n, env, items) == Got(Array(items + [value.value]), separator + 1, value.values)
    ensures separator < |s| && s[separator] == COMMA ==>
              ReadItems(s, p, depth, n, env, items)
              == ReadItems(s, separator + 1, depth, value.values, env, items + [value.value])
  {
    hide SkipBlank, ReadValue;
  }

  /** The value of the first `i` hexadecimal digits. */
  function HexPrefix(h: bytes, i: nat): nat
    requires i <= |h| && forall j :: 0 <= j < i ==> IsHex(h[j])
  {
    if i == 0 then 0 else HexPrefix(h, i - 1) * 16 + HexDigit(h[i - 1])
  }

  lemma HexPrefixAll(h: bytes)
    requires IsHex4(h)
    ensures HexPrefix(h, 4) == Hex4(h)
  {
    assert HexPrefix(h, 1) == HexDigit(h[0]);
    assert HexPrefix(h, 3) == HexPrefix(h, 2) * 16 + HexDigit(h[2]);
  }

  lemma SignedDigits(s: bytes, start: nat, whole: nat, end: nat)
    requires start <= whole <= end <= |s| && AllDigits(s[whole..end])
    requires whole == start || (whole == start + 1 && s[start] == MINUS)
    ensures var text := s[start..end]; AllDigits(text) || (text != [] && text[0] == MINUS && AllDigits(text[1..]))
  {
    if whole != start && whole <= end {
      assert s[start..end][1..] == s[whole..end];
    }
  }
}

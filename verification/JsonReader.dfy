/** The bounded reader as functions of input and position: the specification of the `Parser` methods. */
module JsonReader {
  import opened Results
  import opened Ascii
  import opened Bytes
  import opened Decimals
  import opened Utf8
  import opened JsonGrammar

  /** A result with the position and the value count after it. */
  datatype Read<+T> = Got(value: T, pos: nat, values: nat) | Failed(error: ErrorCode)

  function SkipBlank(s: bytes, p: nat): (q: nat)
    requires p <= |s|
    ensures p <= q <= |s|
    ensures AllBlank(s[p..q]) && (q < |s| ==> !IsBlank(s[q]))
    decreases |s| - p
  {
    if p < |s| && IsBlank(s[p]) then
      var q := SkipBlank(s, p + 1);
      assert s[p..q] == [s[p]] + s[p + 1..q];
      q
    else p
  }

  function SkipDigits(s: bytes, p: nat): (q: nat)
    requires p <= |s|
    ensures p <= q <= |s|
    ensures AllDigits(s[p..q]) && (q < |s| ==> !IsDigit(s[q]))
    decreases |s| - p
  {
    if p < |s| && IsDigit(s[p]) then
      var q := SkipDigits(s, p + 1);
      assert s[p..q] == [s[p]] + s[p + 1..q];
      q
    else p
  }

  // ---------------------------------------------------------------- strings

  /** Four hexadecimal digits. */
  function ReadHex(s: bytes, p: nat): (r: Option<nat>)
    requires p <= |s|
    ensures r.Some? <==> p + 4 <= |s| && IsHex4(s[p..p + 4])
    ensures r.Some? ==> r.value == Hex4(s[p..p + 4])
  {
    if p + 4 <= |s| && IsHex(s[p]) && IsHex(s[p + 1]) && IsHex(s[p + 2]) && IsHex(s[p + 3])
    then Some(Hex4(s[p..p + 4])) else None
  }

  /** What follows a backslash at `p`: the octets it stands for and the position after it. */
  function ReadEscape(s: bytes, p: nat): (r: Read<bytes>)
    requires p <= |s|
    ensures r.Got? ==> p < r.pos <= |s|
  {
    if p >= |s| then Failed(InvalidJson)
    else if s[p] == LETTER_U then
      match ReadHex(s, p + 1)
      case None => Failed(InvalidJson)
      case Some(code) =>
        if IsHigh(code) then
          if p + 7 <= |s| && s[p + 5] == BACKSLASH && s[p + 6] == LETTER_U then
            match ReadHex(s, p + 7)
            case None => Failed(InvalidJson)
            case Some(low) =>
              if IsLow(low) then Got(Encode(SurrogatePair(code, low)), p + 11, 0) else Failed(InvalidJson)
          else Failed(InvalidJson)
        else if IsLow(code) then Failed(InvalidJson)
        else Got(Encode(code), p + 5, 0)
    else
      match Unescape(s[p])
      case None => Failed(InvalidJson)
      case Some(b) => Got([b], p + 1, 0)
  }

  /** The rest of a string literal, `output` being what it has denoted so far. */
  function ReadChars(s: bytes, p: nat, output: bytes, limit: nat): (r: Read<bytes>)
    requires p <= |s|
    ensures r.Got? ==> p < r.pos <= |s|
    decreases |s| - p
  {
    if p >= |s| then Failed(InvalidJson)
    else
      var c := s[p];
      if c == QUOTE then
        if |output| > limit || !Valid(output) then Failed(PayloadTooLarge) else Got(output, p + 1, 0)
      else if c < 0x20 then Failed(InvalidJson)
      else if c != BACKSLASH then ReadChars(s, p + 1, output + [c], limit)
      else
        match ReadEscape(s, p + 1)
        case Failed(e) => Failed(e)
        case Got(more, q, _) =>
          if |output + more| > limit then Failed(PayloadTooLarge) else ReadChars(s, q, output + more, limit)
  }

  function ReadString(s: bytes, p: nat, limit: nat): (r: Read<bytes>)
    requires p < |s|
    ensures r.Got? ==> p < r.pos <= |s|
  {
    if s[p] != QUOTE then Failed(InvalidJson) else ReadChars(s, p + 1, [], limit)
  }

  // ---------------------------------------------------------------- numbers

  /** The position after the optional fraction starting at `p`, if it is well formed. */
  function FractionEnd(s: bytes, p: nat): (r: Option<nat>)
    requires p <= |s|
    ensures r.Some? ==> p <= r.value <= |s|
  {
    if p < |s| && s[p] == DOT then
      var q := SkipDigits(s, p + 1);
      if q == p + 1 then None else Some(q)
    else Some(p)
  }

  /** The position of the first exponent digit, after the marker at `p` and an optional sign. */
  function ExponentDigits(s: bytes, p: nat): (q: nat)
    requires p < |s|
    ensures p < q <= |s|
  {
    if p + 1 < |s| && (s[p + 1] == PLUS || s[p + 1] == MINUS) then p + 2 else p + 1
  }

  predicate IsMarker(b: byte) {
    b == 0x65 || b == 0x45
  }

  function ExponentEnd(s: bytes, p: nat): (r: Option<nat>)
    requires p <= |s|
    ensures r.Some? ==> p <= r.value <= |s|
  {
    if p < |s| && IsMarker(s[p]) then
      var first := ExponentDigits(s, p);
      var q := SkipDigits(s, first);
      if q == first then None else Some(q)
    else Some(p)
  }

  /** The position after the integer part at `p`, if there is one. */
  function WholeEnd(s: bytes, p: nat): (r: Option<nat>)
    requires p <= |s|
    ensures r.Some? ==> p < r.value <= |s| && AllDigits(s[p..r.value])
  {
    if p >= |s| then None
    else if s[p] == ZERO then Some(p + 1)
    else if !IsDigit(s[p]) then None
    else Some(SkipDigits(s, p))
  }

  /** The integer a lexeme of digits after an optional minus denotes. */
  function ToInteger(text: bytes): Option<int>
    requires AllDigits(text) || (text != [] && text[0] == MINUS && AllDigits(text[1..]))
  {
    var v := if text != [] && text[0] == MINUS then -(Decimal(text[1..]) as int) else Decimal(text);
    if FitsInt64(v) then Some(v) else None
  }

  function ReadNumber(s: bytes, p: nat, n: nat, env: Env): (r: Read<Value>)
    requires p <= |s|
    ensures r.Got? ==> p < r.pos <= |s|
  {
    var start := if p < |s| && s[p] == MINUS then p + 1 else p;
    match WholeEnd(s, start)
    case None => Failed(InvalidJson)
    case Some(w) =>
      match FractionEnd(s, w)
      case None => Failed(InvalidJson)
      case Some(f) =>
        match ExponentEnd(s, f)
        case None => Failed(InvalidJson)
        case Some(e) =>
          if e == w then
            assert s[p..w] == (if start == p then [] else [s[p]]) + s[start..w];
            assert start != p ==> s[p..w][1..] == s[start..w];
            match ToInteger(s[p..w])
            case None => Failed(InvalidJson)
            case Some(v) => Got(Integer(v), w, n)
          else
            match env.toDouble(s[p..e])
            case None => Failed(InvalidJson)
            case Some(bits) => Got(Number(bits), e, n)
  }

  function ReadLiteral(s: bytes, p: nat, n: nat, text: bytes, v: Value): (r: Read<Value>)
    requires p <= |s| && text != []
    ensures r.Got? ==> p < r.pos <= |s|
  {
    if p + |text| <= |s| && s[p..p + |text|] == text then Got(v, p + |text|, n) else Failed(InvalidJson)
  }

  // ---------------------------------------------------------------- values

  function ReadValue(s: bytes, p: nat, depth: nat, n: nat, env: Env): (r: Read<Value>)
    requires p <= |s|
    ensures r.Got? ==> p < r.pos <= |s|
    decreases |s| - p, 1
  {
    var q := SkipBlank(s, p);
    if depth > env.maximumDepth then Failed(PayloadTooLarge)
    else if q >= |s| then Failed(InvalidJson)
    else if n >= env.maximumValues then Failed(PayloadTooLarge)
    else
      var c := s[q];
      if c == OPEN_BRACE then
        if depth >= env.maximumDepth then Failed(PayloadTooLarge) else ReadObject(s, q, depth + 1, n + 1, env)
      else if c == OPEN_BRACKET then
        if depth >= env.maximumDepth then Failed(PayloadTooLarge) else ReadArray(s, q, depth + 1, n + 1, env)
      else if c == QUOTE then
        match ReadString(s, q, env.maximumStringBytes)
        case Failed(e) => Failed(e)
        case Got(text, after, _) => Got(Text(text), after, n + 1)
      else if c == 0x74 then ReadLiteral(s, q, n + 1, TRUE_TEXT, Boolean(true))
      else if c == 0x66 then ReadLiteral(s, q, n + 1, FALSE_TEXT, Boolean(false))
      else if c == 0x6E then ReadLiteral(s, q, n + 1, NULL_TEXT, Null)
      else ReadNumber(s, q, n + 1, env)
  }

  function ReadObject(s: bytes, p: nat, depth: nat, n: nat, env: Env): (r: Read<Value>)
    requires p < |s|
    ensures r.Got? ==> p < r.pos <= |s|
    decreases |s| - p, 0
  {
    var q := SkipBlank(s, p + 1);
    if q < |s| && s[q] == CLOSE_BRACE then Got(Object(map[]), q + 1, n)
    else ReadMembers(s, q, depth, n, env, map[])
  }

  /** One member at `p` and all that follow it, added to the members read so far. */
  function ReadMembers(s: bytes, p: nat, depth: nat, n: nat, env: Env, members: map<bytes, Value>): (r: Read<Value>)
    requires p <= |s|
    ensures r.Got? ==> p < r.pos <= |s|
    decreases |s| - p, 2
  {
    var q := SkipBlank(s, p);
    if q >= |s| || s[q] != QUOTE then Failed(InvalidJson)
    else
      match ReadString(s, q, env.maximumStringBytes)
      case Failed(e) => Failed(e)
      case Got(key, afterKey, _) =>
        var colon := SkipBlank(s, afterKey);
        if colon >= |s| || s[colon] != COLON then Failed(InvalidJson)
        else
          match ReadValue(s, colon + 1, depth, n, env)
          case Failed(e) => Failed(e)
          case Got(value, afterValue, n') =>
            if key in members then Failed(InvalidJson)
            else
              var separator := SkipBlank(s, afterValue);
              if separator >= |s| then Failed(InvalidJson)
              else if s[separator] == CLOSE_BRACE then Got(Object(members[key := value]), separator + 1, n')
              else if s[separator] != COMMA then Failed(InvalidJson)
              else ReadMembers(s, separator + 1, depth, n', env, members[key := value])
  }

  function ReadArray(s: bytes, p: nat, depth: nat, n: nat, env: Env): (r: Read<Value>)
    requires p < |s|
    ensures r.Got? ==> p < r.pos <= |s|
    decreases |s| - p, 0
  {
    var q := SkipBlank(s, p + 1);
    if q < |s| && s[q] == CLOSE_BRACKET then Got(Array([]), q + 1, n)
    else ReadItems(s, q, depth, n, env, [])
  }

  function ReadItems(s: bytes, p: nat, depth: nat, n: nat, env: Env, items: seq<Value>): (r: Read<Value>)
    requires p <= |s|
    ensures r.Got? ==> p < r.pos <= |s|
    decreases |s| - p, 2
  {
    match ReadValue(s, p, depth, n, env)
    case Failed(e) => Failed(e)
    case Got(value, afterValue, n') =>
      var separator := SkipBlank(s, afterValue);
      if separator >= |s| then Failed(InvalidJson)
      else if s[separator] == CLOSE_BRACKET then Got(Array(items + [value]), separator + 1, n')
      else if s[separator] != COMMA then Failed(InvalidJson)
      else ReadItems(s, separator + 1, depth, n', env, items + [value])
  }

  /** The whole entry point `parse`. */
  function Parse(s: bytes, env: Env): Result<Value> {
    if |s| > env.maximumBytes then Err(PayloadTooLarge)
    else if s == [] then Err(InvalidJson)
    else if !Valid(s) then Err(ErrorCode.InvalidUtf8)
    else
      match ReadValue(s, 0, 0, 0, env)
      case Failed(e) => Err(e)
      case Got(value, p, _) => if SkipBlank(s, p) != |s| then Err(InvalidJson) else Ok(value)
  }

  // ---------------------------------------------------------------- one member at a time

  /** `ReadMembers` fails when there is no key, a bad key or no colon. */
  lemma KeyStage(s: bytes, p: nat, depth: nat, n: nat, env: Env, members: map<bytes, Value>, q: nat)
    requires p <= |s| && q == SkipBlank(s, p)
    ensures q >= |s| || s[q] != QUOTE ==> ReadMembers(s, p, depth, n, env, members) == Failed(InvalidJson)
    ensures q < |s| && s[q] == QUOTE && ReadString(s, q, env.maximumStringBytes).Failed? ==>
              ReadMembers(s, p, depth, n, env, members) == Failed(ReadString(s, q, env.maximumStringBytes).error)
  {
    hide SkipBlank, ReadString, ReadValue;
  }

  lemma ColonStage(s: bytes, p: nat, depth: nat, n: nat, env: Env, members: map<bytes, Value>, q: nat, key: Read<bytes>,
                   colon: nat)
    requires p <= |s| && q == SkipBlank(s, p) && q < |s| && s[q] == QUOTE
    requires key == ReadString(s, q, env.maximumStringBytes) && key.Got? && colon == SkipBlank(s, key.pos)
    requires colon >= |s| || s[colon] != COLON
    ensures ReadMembers(s, p, depth, n, env, members) == Failed(InvalidJson)
  {
    hide SkipBlank, ReadString, ReadValue;
  }

  /** `ReadMembers` fails when the value does, or the key has been read before. */
  lemma ValueStage(s: bytes, p: nat, depth: nat, n: nat, env: Env, members: map<bytes, Value>, q: nat, key: Read<bytes>,
                   colon: nat, value: Read<Value>)
    requires p <= |s| && q == SkipBlank(s, p) && q < |s| && s[q] == QUOTE
    requires key == ReadString(s, q, env.maximumStringBytes) && key.Got?
    requires colon == SkipBlank(s, key.pos) && colon < |s| && s[colon] == COLON
    requires value == ReadValue(s, colon + 1, depth, n, env)
    ensures value.Failed? ==> ReadMembers(s, p, depth, n, env, members) == Failed(value.error)
    ensures value.Got? && key.value in members ==> ReadMembers(s, p, depth, n, env, members) == Failed(InvalidJson)
  {
    hide SkipBlank, ReadString, ReadValue;
  }

  /** What `ReadMembers` does after a key and its value. */
  lemma SeparatorStage(s: bytes, p: nat, depth: nat, n: nat, env: Env, members: map<bytes, Value>, q: nat,
                       key: Read<bytes>, colon: nat, value: Read<Value>, separator: nat)
    requires p <= |s| && q == SkipBlank(s, p) && q < |s| && s[q] == QUOTE
    requires key == ReadString(s, q, env.maximumStringBytes) && key.Got?
    requires colon == SkipBlank(s, key.pos) && colon < |s| && s[colon] == COLON
    requires value == ReadValue(s, colon + 1, depth, n, env) && value.Got? && key.value !in members
    requires separator == SkipBlank(s, value.pos)
    ensures separator >= |s| || (s[separator] != CLOSE_BRACE && s[separator] != COMMA) ==>
              ReadMembers(s, p, depth, n, env, members) == Failed(InvalidJson)
    ensures separator < |s| && s[separator] == CLOSE_BRACE ==>
              ReadMembers(s, p, depth, n, env, members)
              == Got(Object(members[key.value := value.value]), separator + 1, value.values)
    ensures separator < |s| && s[separator] == COMMA ==>
              ReadMembers(s, p, depth, n, env, members)
              == ReadMembers(s, separator + 1, depth, value.values, env, members[key.value := value.value])
  {
    hide SkipBlank, ReadString, ReadValue;
  }
}

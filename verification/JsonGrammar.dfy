/** The JSON grammar of RFC 8259 sections 2 to 7 as syntax trees: how they are written, and what they denote. */
module JsonGrammar {
  import opened Results
  import opened Ascii
  import opened Bytes
  import opened Decimals
  import opened Utf8

  const TRUE_TEXT: bytes := [0x74, 0x72, 0x75, 0x65]
  const FALSE_TEXT: bytes := [0x66, 0x61, 0x6C, 0x73, 0x65]
  const NULL_TEXT: bytes := [0x6E, 0x75, 0x6C, 0x6C]

  // ---------------------------------------------------------------- values and limits

  /** A finite double is named by its bit pattern. */
  datatype Value =
    | Null
    | Boolean(b: bool)
    | Integer(i: int)
    | Number(bits: nat)
    | Text(text: bytes)
    | Array(items: seq<Value>)
    | Object(members: map<bytes, Value>)

  /** The four limits, and the library's conversion of a non-integral lexeme to a finite double, if it has one. */
  datatype Env = Env(
    maximumBytes: nat,
    maximumDepth: nat,
    maximumValues: nat,
    maximumStringBytes: nat,
    toDouble: bytes -> Option<nat>)

  // ---------------------------------------------------------------- strings (section 7)

  datatype Piece =
    | Raw(b: byte)
    | Short(letter: byte)
    | Unit(digits: bytes)
    | Pair(high: bytes, low: bytes)

  predicate IsHex(b: byte) {
    0x30 <= b <= 0x39 || 0x41 <= b <= 0x46 || 0x61 <= b <= 0x66
  }

  function HexDigit(b: byte): (d: nat)
    requires IsHex(b)
    ensures d < 16
  {
    if b <= 0x39 then b - 0x30 else if b <= 0x46 then b - 0x41 + 10 else b - 0x61 + 10
  }

  predicate IsHex4(h: bytes) {
    |h| == 4 && forall i :: 0 <= i < 4 ==> IsHex(h[i])
  }

  function Hex4(h: bytes): (v: nat)
    requires IsHex4(h)
    ensures v <= 0xFFFF
  {
    ((HexDigit(h[0]) * 16 + HexDigit(h[1])) * 16 + HexDigit(h[2])) * 16 + HexDigit(h[3])
  }

  predicate IsHigh(v: nat) {
    0xD800 <= v <= 0xDBFF
  }

  predicate IsLow(v: nat) {
    0xDC00 <= v <= 0xDFFF
  }

  /** The octet a two-character escape stands for. */
  function Unescape(letter: byte): Option<byte> {
    if letter == QUOTE || letter == BACKSLASH || letter == 0x2F then Some(letter)
    else if letter == 0x62 then Some(0x08)
    else if letter == 0x66 then Some(0x0C)
    else if letter == 0x6E then Some(0x0A)
    else if letter == 0x72 then Some(0x0D)
    else if letter == 0x74 then Some(0x09)
    else None
  }

  predicate PieceOk(p: Piece) {
    match p
    case Raw(b) => b >= 0x20 && b != QUOTE && b != BACKSLASH
    case Short(letter) => Unescape(letter).Some?
    case Unit(digits) => IsHex4(digits) && !IsHigh(Hex4(digits)) && !IsLow(Hex4(digits))
    case Pair(high, low) => IsHex4(high) && IsHex4(low) && IsHigh(Hex4(high)) && IsLow(Hex4(low))
  }

  function SurrogatePair(high: nat, low: nat): (k: nat)
    requires IsHigh(high) && IsLow(low)
    ensures 0x10000 <= k <= 0x10FFFF
  {
    0x10000 + (high - 0xD800) * 1024 + (low - 0xDC00)
  }

  function WritePiece(p: Piece): (r: bytes)
    ensures |r| >= 1
  {
    match p
    case Raw(b) => [b]
    case Short(letter) => [BACKSLASH, letter]
    case Unit(digits) => [BACKSLASH, LETTER_U] + digits
    case Pair(high, low) => [BACKSLASH, LETTER_U] + high + [BACKSLASH, LETTER_U] + low
  }

  function PieceBytes(p: Piece): bytes
    requires PieceOk(p)
  {
    match p
    case Raw(b) => [b]
    case Short(letter) => [Unescape(letter).value]
    case Unit(digits) => Encode(Hex4(digits))
    case Pair(high, low) => Encode(SurrogatePair(Hex4(high), Hex4(low)))
  }

  predicate PiecesOk(ps: seq<Piece>) {
    forall i :: 0 <= i < |ps| ==> PieceOk(ps[i])
  }

  function WritePieces(ps: seq<Piece>): bytes {
    if ps == [] then [] else WritePiece(ps[0]) + WritePieces(ps[1..])
  }

  /** The octets a string literal denotes. */
  function PiecesBytes(ps: seq<Piece>): bytes
    requires PiecesOk(ps)
  {
    if ps == [] then [] else PieceBytes(ps[0]) + PiecesBytes(ps[1..])
  }

  function WriteString(ps: seq<Piece>): bytes {
    [QUOTE] + WritePieces(ps) + [QUOTE]
  }

  // ---------------------------------------------------------------- numbers (section 6)

  datatype Exponent = Exponent(marker: byte, sign: Option<byte>, digits: bytes)

  datatype Lexeme = Lexeme(negative: bool, whole: bytes, fraction: Option<bytes>, exponent: Option<Exponent>)

  predicate LexemeOk(n: Lexeme) {
    && AllDigits(n.whole) && n.whole != [] && (n.whole[0] == ZERO ==> |n.whole| == 1)
    && (n.fraction.Some? ==> AllDigits(n.fraction.value) && n.fraction.value != [])
    && (n.exponent.Some? ==>
          var e := n.exponent.value;
          && (e.marker == 0x65 || e.marker == 0x45) && AllDigits(e.digits) && e.digits != []
          && (e.sign.Some? ==> e.sign.value == PLUS || e.sign.value == MINUS))
  }

  function WriteFraction(f: Option<bytes>): bytes {
    match f
    case None => []
    case Some(digits) => [DOT] + digits
  }

  function WriteExponent(e: Option<Exponent>): bytes {
    match e
    case None => []
    case Some(Exponent(marker, sign, digits)) => [marker] + (if sign.Some? then [sign.value] else []) + digits
  }

  function WriteSign(negative: bool): bytes {
    if negative then [MINUS] else []
  }

  function WriteLexeme(n: Lexeme): bytes {
    WriteSign(n.negative) + n.whole + WriteFraction(n.fraction) + WriteExponent(n.exponent)
  }

  predicate Integral(n: Lexeme) {
    n.fraction.None? && n.exponent.None?
  }

  function IntegerOf(n: Lexeme): int
    requires AllDigits(n.whole)
  {
    if n.negative then -(Decimal(n.whole) as int) else Decimal(n.whole)
  }

  predicate FitsInt64(v: int) {
    -0x8000_0000_0000_0000 <= v <= 0x7FFF_FFFF_FFFF_FFFF
  }

  predicate NumberInRange(n: Lexeme, env: Env)
    requires LexemeOk(n)
  {
    if Integral(n) then FitsInt64(IntegerOf(n)) else env.toDouble(WriteLexeme(n)).Some?
  }

  // ---------------------------------------------------------------- texts (sections 2 to 5)

  datatype Tree =
    | NullTree
    | TrueTree
    | FalseTree
    | NumberTree(number: Lexeme)
    | StringTree(pieces: seq<Piece>)
    | ArrayTree(blank: bytes, items: Items)
    | ObjectTree(blank: bytes, members: Members)

  datatype Items =
    | NoItems
    | Item(before: bytes, value: Tree, after: bytes, rest: Items)

  datatype Members =
    | NoMembers
    | Member(before: bytes, key: seq<Piece>, between: bytes, valueBefore: bytes, value: Tree, after: bytes,
             rest: Members)

  predicate IsBlank(b: byte) {
    b == 0x20 || b == 0x09 || b == 0x0D || b == 0x0A
  }

  predicate AllBlank(s: bytes) {
    forall i :: 0 <= i < |s| ==> IsBlank(s[i])
  }

  function WriteTree(t: Tree): bytes {
    match t
    case NullTree => NULL_TEXT
    case TrueTree => TRUE_TEXT
    case FalseTree => FALSE_TEXT
    case NumberTree(n) => WriteLexeme(n)
    case StringTree(pieces) => WriteString(pieces)
    case ArrayTree(blank, items) => [OPEN_BRACKET] + (blank + (WriteItems(items) + [CLOSE_BRACKET]))
    case ObjectTree(blank, members) => [OPEN_BRACE] + (blank + (WriteMembers(members) + [CLOSE_BRACE]))
  }

  /** Elements separated by commas. */
  function WriteItems(items: Items): bytes {
    match items
    case NoItems => []
    case Item(before, value, after, rest) =>
      before + (WriteTree(value) + (after + (if rest.NoItems? then [] else [COMMA] + WriteItems(rest))))
  }

  function WriteMembers(members: Members): bytes {
    match members
    case NoMembers => []
    case Member(before, key, between, valueBefore, value, after, rest) =>
      before + (WriteString(key) + (between + ([COLON] + (valueBefore + (WriteTree(value)
      + (after + (if rest.NoMembers? then [] else [COMMA] + WriteMembers(rest))))))))
  }

  /** The tree follows the grammar, surrogates are paired, numbers are in range and keys are distinct. */
  predicate TreeOk(t: Tree, env: Env) {
    match t
    case NumberTree(n) => LexemeOk(n) && NumberInRange(n, env)
    case StringTree(pieces) => PiecesOk(pieces)
    case ArrayTree(blank, items) => AllBlank(blank) && (items.NoItems? || blank == []) && ItemsOk(items, env)
    case ObjectTree(blank, members) => AllBlank(blank) && (members.NoMembers? || blank == []) && MembersOk(members, env)
    case _ => true
  }

  predicate ItemsOk(items: Items, env: Env) {
    match items
    case NoItems => true
    case Item(before, value, after, rest) =>
      AllBlank(before) && AllBlank(after) && TreeOk(value, env) && ItemsOk(rest, env)
  }

  predicate MembersOk(members: Members, env: Env) {
    match members
    case NoMembers => true
    case Member(before, key, between, valueBefore, value, after, rest) =>
      && AllBlank(before) && AllBlank(between) && AllBlank(valueBefore) && AllBlank(after)
      && PiecesOk(key) && TreeOk(value, env) && MembersOk(rest, env)
      && PiecesBytes(key) !in Keys(rest)
  }

  /** The keys an object's members denote. */
  function Keys(members: Members): set<bytes> {
    match members
    case NoMembers => {}
    case Member(_, key, _, _, _, _, rest) => (if PiecesOk(key) then {PiecesBytes(key)} else {}) + Keys(rest)
  }

  function Denote(t: Tree, env: Env): Value
    requires TreeOk(t, env)
  {
    match t
    case NullTree => Null
    case TrueTree => Boolean(true)
    case FalseTree => Boolean(false)
    case NumberTree(n) => if Integral(n) then Integer(IntegerOf(n)) else Number(env.toDouble(WriteLexeme(n)).value)
    case StringTree(pieces) => Text(PiecesBytes(pieces))
    case ArrayTree(_, items) => Array(DenoteItems(items, env))
    case ObjectTree(_, members) => Object(DenoteMembers(members, env))
  }

  function DenoteItems(items: Items, env: Env): seq<Value>
    requires ItemsOk(items, env)
  {
    match items
    case NoItems => []
    case Item(_, value, _, rest) => [Denote(value, env)] + DenoteItems(rest, env)
  }

  function DenoteMembers(members: Members, env: Env): (m: map<bytes, Value>)
    requires MembersOk(members, env)
    ensures m.Keys == Keys(members)
  {
    match members
    case NoMembers => map[]
    case Member(_, key, _, _, value, _, rest) => DenoteMembers(rest, env)[PiecesBytes(key) := Denote(value, env)]
  }

  // ---------------------------------------------------------------- what the limits measure

  function Max(a: nat, b: nat): nat {
    if a < b then b else a
  }

  /** How deep arrays and objects nest. */
  function Depth(t: Tree): nat {
    match t
    case ArrayTree(_, items) => 1 + ItemsDepth(items)
    case ObjectTree(_, members) => 1 + MembersDepth(members)
    case _ => 0
  }

  function ItemsDepth(items: Items): nat {
    match items
    case NoItems => 0
    case Item(_, value, _, rest) => Max(Depth(value), ItemsDepth(rest))
  }

  function MembersDepth(members: Members): nat {
    match members
    case NoMembers => 0
    case Member(_, _, _, _, value, _, rest) => Max(Depth(value), MembersDepth(rest))
  }

  /** How many values there are, keys not counted. */
  function Size(t: Tree): nat {
    match t
    case ArrayTree(_, items) => 1 + ItemsSize(items)
    case ObjectTree(_, members) => 1 + MembersSize(members)
    case _ => 1
  }

  function ItemsSize(items: Items): nat {
    match items
    case NoItems => 0
    case Item(_, value, _, rest) => Size(value) + ItemsSize(rest)
  }

  function MembersSize(members: Members): nat {
    match members
    case NoMembers => 0
    case Member(_, _, _, _, value, _, rest) => Size(value) + MembersSize(rest)
  }

  predicate StringFits(ps: seq<Piece>, env: Env) {
    PiecesOk(ps) && |PiecesBytes(ps)| <= env.maximumStringBytes
  }

  /** Every string and key respects the string limit. */
  predicate StringsFit(t: Tree, env: Env) {
    match t
    case StringTree(pieces) => StringFits(pieces, env)
    case ArrayTree(_, items) => ItemStringsFit(items, env)
    case ObjectTree(_, members) => MemberStringsFit(members, env)
    case _ => true
  }

  predicate ItemStringsFit(items: Items, env: Env) {
    match items
    case NoItems => true
    case Item(_, value, _, rest) => StringsFit(value, env) && ItemStringsFit(rest, env)
  }

  predicate MemberStringsFit(members: Members, env: Env) {
    match members
    case NoMembers => true
    case Member(_, key, _, _, value, _, rest) =>
      StringFits(key, env) && StringsFit(value, env) && MemberStringsFit(rest, env)
  }

  // ---------------------------------------------------------------- decoded strings are UTF-8

  predicate StringUtf8(ps: seq<Piece>) {
    PiecesOk(ps) && Valid(PiecesBytes(ps))
  }

  /** Every string and key denotes valid UTF-8. */
  predicate AllUtf8(t: Tree) {
    match t
    case StringTree(pieces) => StringUtf8(pieces)
    case ArrayTree(_, items) => ItemsUtf8(items)
    case ObjectTree(_, members) => MembersUtf8(members)
    case _ => true
  }

  predicate ItemsUtf8(items: Items) {
    match items
    case NoItems => true
    case Item(_, value, _, rest) => AllUtf8(value) && ItemsUtf8(rest)
  }

  predicate MembersUtf8(members: Members) {
    match members
    case NoMembers => true
    case Member(_, key, _, _, value, _, rest) => StringUtf8(key) && AllUtf8(value) && MembersUtf8(rest)
  }

  // ---------------------------------------------------------------- whole texts

  /** `input` is blank space, one value, blank space (section 2), within all four limits, and denotes `v`. */
  ghost predicate Means(input: bytes, env: Env, v: Value) {
    && |input| <= env.maximumBytes
    && Valid(input)
    && exists before, t, after :: Writes(input, env, before, t, after) && Denote(t, env) == v
  }

  ghost predicate Writes(input: bytes, env: Env, before: bytes, t: Tree, after: bytes) {
    && input == before + WriteTree(t) + after
    && AllBlank(before) && AllBlank(after) && TreeOk(t, env)
    && Depth(t) <= env.maximumDepth && Size(t) <= env.maximumValues && StringsFit(t, env)
  }
}

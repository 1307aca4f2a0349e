/** The text form of cached verdicts (src/c/tc_cache.c:381-677): what is written for a value, and
    what is read back from a position in a text. */
module TcText {
  import opened Options

  /** A KLambda value; a double is its 64 bits, Opaque is a function, vector, stream or the like. */
  datatype Kl =
    | Nil
    | Cons(head: Kl, tail: Kl)
    | Bool(b: bool)
    | Int(n: int)
    | Double(bits: nat)
    | Symbol(name: string)
    | Str(text: string)
    | Opaque(id: nat)

  const LONG_MIN: int := -0x8000_0000_0000_0000
  const LONG_MAX: int := 0x7FFF_FFFF_FFFF_FFFF
  const SPINE: nat := 256

  predicate IsLong(n: int) {
    LONG_MIN <= n <= LONG_MAX
  }

  /** What the C representation can hold: 64-bit numbers, and strings without a null byte that are
      shorter than 2^63. */
  predicate Representable(v: Kl) {
    match v
    case Cons(h, t) => Representable(h) && Representable(t)
    case Int(n) => IsLong(n)
    case Double(bits) => bits < 0x1_0000_0000_0000_0000
    case Symbol(name) => |name| <= LONG_MAX && '\0' !in name
    case Str(text) => |text| <= LONG_MAX && '\0' !in text
    case _ => true
  }

  // Numbers -------------------------------------------------------------------------------------

  function Digit(d: nat): (c: char)
    requires d < 16
  {
    if d < 10 then '0' + d as char else 'a' + (d - 10) as char
  }

  function DigitValue(c: char): Option<nat> {
    if '0' <= c <= '9' then Some((c - '0') as nat)
    else if 'a' <= c <= 'f' then Some((c - 'a') as nat + 10)
    else if 'A' <= c <= 'F' then Some((c - 'A') as nat + 10)
    else None
  }

  /** Digits of n, most significant first. */
  function Digits(n: nat, base: nat): (s: string)
    requires 2 <= base <= 16
    ensures |s| > 0
    decreases n
  {
    if n < base then [Digit(n)] else Digits(n / base, base) + [Digit(n % base)]
  }

  /** "%ld" */
  function Decimal(n: int): string {
    if n < 0 then "-" + Digits(-n, 10) else Digits(n, 10)
  }

  /** "%016" PRIx64 */
  function Hex(n: nat, width: nat): (s: string)
    ensures |s| == width
  {
    if width == 0 then "" else Hex(n / 16, width - 1) + [Digit(n % 16)]
  }

  predicate IsSpace(c: char) {
    c == ' ' || ('\t' <= c <= '\r')
  }

  /** The number that starts at i, and where its digits end. */
  function ReadDigits(s: string, i: nat, base: nat, acc: nat): (r: (nat, nat))
    requires i <= |s| && base <= 16
    ensures i <= r.1 <= |s|
    decreases |s| - i
  {
    if i < |s| && DigitValue(s[i]).Some? && DigitValue(s[i]).value < base
    then ReadDigits(s, i + 1, base, acc * base + DigitValue(s[i]).value)
    else (acc, i)
  }

  function SkipSpace(s: string, i: nat): (j: nat)
    requires i <= |s|
    ensures i <= j <= |s|
    decreases |s| - i
  {
    if i < |s| && IsSpace(s[i]) then SkipSpace(s, i + 1) else i
  }

  function Clamp(n: int): int {
    if n < LONG_MIN then LONG_MIN else if n > LONG_MAX then LONG_MAX else n
  }

  /** strtol in base 10 of a whole buffer; a null byte ends the buffer. */
  function Strtol(s: string): Option<int> {
    var i := SkipSpace(s, 0);
    var negative := i < |s| && s[i] == '-';
    var j := if i < |s| && (s[i] == '-' || s[i] == '+') then i + 1 else i;
    var (n: int, end) := ReadDigits(s, j, 10, 0);
    if end == j || (end < |s| && s[end] != '\0') then None else Some(Clamp(if negative then -n else n))
  }

  /** strtoull in base 16 of a whole buffer of 16 bytes, so that it cannot overflow. */
  function Strtoull(s: string): Option<nat> {
    var i := SkipSpace(s, 0);
    var negative := i < |s| && s[i] == '-';
    var j := if i < |s| && (s[i] == '-' || s[i] == '+') then i + 1 else i;
    var prefixed := j + 2 < |s| && s[j] == '0' && (s[j + 1] == 'x' || s[j + 1] == 'X') && DigitValue(s[j + 2]).Some?;
    var k := if prefixed then j + 2 else j;
    var (n, end) := ReadDigits(s, k, 16, 0);
    if end == k || (end < |s| && s[end] != '\0') then None
    else Some(if negative then (0x1_0000_0000_0000_0000 - n) % 0x1_0000_0000_0000_0000 else n)
  }

  // Values --------------------------------------------------------------------------------------

  /** serialize_value: nothing when some part has no text form. */
  function Serialize(v: Kl): Option<string> {
    match v
    case Nil => Some("n")
    case Bool(b) => Some(if b then "t" else "u")
    case Int(n) => Some("i" + Decimal(n) + ";")
    case Double(bits) => Some("f" + Hex(bits, 16) + ";")
    case Symbol(name) => Some("y" + Decimal(|name|) + ":" + name)
    case Str(text) => Some("s" + Decimal(|text|) + ":" + text)
    case Opaque(_) => None
    case Cons(h, t) =>
      var a, b := Serialize(h), Serialize(t);
      if a.None? || b.None? then None else Some("c" + a.value + b.value)
  }

  /** What is read, and the position after it. */
  datatype Read<+T> = Bad | Good(value: T, pos: nat)

  /** p_number_until: fewer than 64 bytes up to a stop byte. */
  function NumberUntil(s: string, pos: nat, stop: char): (r: Read<int>)
    ensures r.Good? ==> pos < r.pos <= |s|
  {
    var end := Find(s, pos, stop);
    if end >= |s| || end == pos || end - pos >= 64 then Bad
    else
      var n := Strtol(s[pos..end]);
      if n.None? then Bad else Good(n.value, end + 1)
  }

  function Find(s: string, pos: nat, stop: char): (end: nat)
    ensures pos <= |s| ==> pos <= end <= |s|
    ensures end >= pos && (end < |s| ==> s[end] == stop)
    decreases |s| - pos
  {
    if pos >= |s| || s[pos] == stop then pos else Find(s, pos + 1, stop)
  }

  /** Sixteen hexadecimal digits. */
  function HexAt(s: string, pos: nat): (r: Read<nat>)
    ensures r.Good? ==> r.pos == pos + 16 <= |s|
  {
    if pos + 16 > |s| then Bad
    else
      var n := Strtoull(s[pos..pos + 16]);
      if n.None? then Bad else Good(n.value, pos + 16)
  }

  /** strlen ends a name at its first null byte. */
  function CString(s: string): string {
    s[..Find(s, 0, '\0')]
  }

  /** parse_atom, after the tag. */
  function ParseAtom(s: string, tag: char, pos: nat): (r: Read<Kl>)
    requires pos <= |s|
    ensures r.Good? ==> pos <= r.pos <= |s|
  {
    if tag == 'n' then Good(Nil, pos)
    else if tag == 't' then Good(Bool(true), pos)
    else if tag == 'u' then Good(Bool(false), pos)
    else if tag == 'i' then
      var n := NumberUntil(s, pos, ';');
      if n.Bad? then Bad else Good(Int(n.value), n.pos)
    else if tag == 'f' then
      var n := HexAt(s, pos);
      if n.Bad? || n.pos >= |s| || s[n.pos] != ';' then Bad else Good(Double(n.value), n.pos + 1)
    else if tag == 'y' || tag == 's' then
      var n := NumberUntil(s, pos, ':');
      if n.Bad? || n.value < 0 || n.pos + n.value > |s| then Bad
      else
        var text := CString(s[n.pos..n.pos + n.value]);
        Good(if tag == 'y' then Symbol(text) else Str(text), n.pos + n.value)
    else Bad
  }

  /** parse_value with n conses of the current cdr chain already read. */
  function ParseChain(s: string, pos: nat, n: nat): (r: Read<Kl>)
    requires pos <= |s|
    ensures r.Good? ==> pos < r.pos <= |s|
    decreases |s| - pos
  {
    if pos >= |s| then Bad
    else if s[pos] != 'c' then ParseAtom(s, s[pos], pos + 1)
    else if n >= SPINE then Bad
    else
      var h := ParseChain(s, pos + 1, 0);
      if h.Bad? then Bad
      else
        var t := ParseChain(s, h.pos, n + 1);
        if t.Bad? then Bad else Good(Cons(h.value, t.value), t.pos)
  }

  function ParseValue(s: string, pos: nat): (r: Read<Kl>)
    requires pos <= |s|
    ensures r.Good? ==> pos < r.pos <= |s|
  {
    ParseChain(s, pos, 0)
  }

  /** Every cdr chain has at most 256 conses, n of the current one being counted already. */
  predicate SpinesFit(v: Kl, n: nat) {
    v.Cons? ==> n < SPINE && SpinesFit(v.head, 0) && SpinesFit(v.tail, n + 1)
  }
}

/**
 The byte scan that bounds JSON nesting before any value is built, against the
 grammar of sections 2 to 7 of RFC 8259: values as written, with every choice of
 whitespace and of escapes inside strings.
 */
module JsonDepth {
  import opened Basics

  const MAX_NESTING: nat := 64

  newtype Byte = x: int | 0 <= x < 256

  const QUOTE: Byte := 34
  const COMMA: Byte := 44
  const COLON: Byte := 58
  const OPEN_ARRAY: Byte := 91
  const BACKSLASH: Byte := 92
  const CLOSE_ARRAY: Byte := 93
  const OPEN_OBJECT: Byte := 123
  const CLOSE_OBJECT: Byte := 125

  /** The bytes are those of the characters in the grammar. */
  lemma BytesAreCharacters()
    ensures QUOTE as int == '"' as int && COMMA as int == ',' as int && COLON as int == ':' as int
    ensures OPEN_ARRAY as int == '[' as int && CLOSE_ARRAY as int == ']' as int && BACKSLASH as int == '\\' as int
    ensures OPEN_OBJECT as int == '{' as int && CLOSE_OBJECT as int == '}' as int
  {}

  // ----- The scan -----

  datatype Scan = Scan(depth: int, quoted: bool, escaped: bool)

  function Next(s: Scan, byte: Byte): Scan {
    if s.quoted then
      if s.escaped then s.(escaped := false)
      else if byte == BACKSLASH then s.(escaped := true)
      else if byte == QUOTE then s.(quoted := false)
      else s
    else if byte == QUOTE then s.(quoted := true)
    else if byte == OPEN_ARRAY || byte == OPEN_OBJECT then s.(depth := s.depth + 1)
    else if byte == CLOSE_ARRAY || byte == CLOSE_OBJECT then s.(depth := s.depth - 1)
    else s
  }

  function After(s: Scan, text: seq<Byte>): Scan
    decreases |text|
  {
    if text == [] then s else After(Next(s, text[0]), text[1..])
  }

  /** The greatest depth met from `s` on. */
  function Deepest(s: Scan, text: seq<Byte>): int
    decreases |text|
  {
    if text == [] then s.depth else Max(s.depth, Deepest(Next(s, text[0]), text[1..]))
  }

  /** The loop, which stops at the first opening bracket past the bound. Any bytes at all may be given. */
  method WithinNesting(raw: seq<Byte>) returns (ok: bool)
    ensures ok <==> Deepest(Scan(0, false, false), raw) <= MAX_NESTING
  {
    var depth, quoted, escaped := 0, false, false;
    for i := 0 to |raw|
      invariant depth <= MAX_NESTING
      invariant Deepest(Scan(0, false, false), raw) <= MAX_NESTING
           <==> Deepest(Scan(depth, quoted, escaped), raw[i..]) <= MAX_NESTING
    {
      var byte := raw[i];
      assert raw[i..][1..] == raw[i + 1..];
      if quoted {
        if escaped {
          escaped := false;
        } else if byte == BACKSLASH {
          escaped := true;
        } else if byte == QUOTE {
          quoted := false;
        }
      } else if byte == QUOTE {
        quoted := true;
      } else if byte == OPEN_ARRAY || byte == OPEN_OBJECT {
        depth := depth + 1;
        if depth > MAX_NESTING {
          DeepestAtLeast(Scan(depth, quoted, escaped), raw[i + 1..]);
          return false;
        }
      } else if byte == CLOSE_ARRAY || byte == CLOSE_OBJECT {
        depth := depth - 1;
      }
    }
    ok := true;
  }

  lemma DeepestAtLeast(s: Scan, text: seq<Byte>)
    ensures Deepest(s, text) >= s.depth
  {}

  // ----- JSON as written -----

  type Bytes = seq<Byte>

  /** One character of a string: itself, or a backslash and what follows it. */
  datatype Char = Plain(byte: Byte) | Escape(tail: Bytes)

  /** A written value. Every `Bytes` beside a value is whitespace. */
  datatype Value =
    | Scalar(token: Bytes)
    | Text(chars: seq<Char>)
    | Array(elements: Elements, pad: Bytes)
    | Object(members: Members, pad: Bytes)

  datatype Elements = NoElements | Element(before: Bytes, value: Value, after: Bytes, rest: Elements)

  datatype Members =
    | NoMembers
    | Member(before: Bytes, name: seq<Char>, colonBefore: Bytes, colonAfter: Bytes, value: Value, after: Bytes,
             rest: Members)

  predicate Whitespace(text: Bytes) {
    forall i :: 0 <= i < |text| ==> text[i] == 32 || text[i] == 9 || text[i] == 10 || text[i] == 13
  }

  predicate Hex(byte: Byte) {
    48 <= byte <= 57 || 65 <= byte <= 70 || 97 <= byte <= 102
  }

  predicate ValidChar(c: Char) {
    match c
    case Plain(byte) => byte >= 32 && byte != QUOTE && byte != BACKSLASH
    case Escape(tail) =>
      || (|tail| == 1 && tail[0] in {QUOTE, BACKSLASH, 47, 98, 102, 110, 114, 116})
      || (|tail| == 5 && tail[0] == 117 && Hex(tail[1]) && Hex(tail[2]) && Hex(tail[3]) && Hex(tail[4]))
  }

  predicate ValidChars(chars: seq<Char>) {
    forall i :: 0 <= i < |chars| ==> ValidChar(chars[i])
  }

  /** Letters, digits, signs and dots: every number and the three literal names, and more. */
  predicate TokenByte(byte: Byte) {
    48 <= byte <= 57 || 97 <= byte <= 122 || byte == 69 || byte == 43 || byte == 45 || byte == 46
  }

  predicate ValidValue(v: Value) {
    match v
    case Scalar(token) => forall i :: 0 <= i < |token| ==> TokenByte(token[i])
    case Text(chars) => ValidChars(chars)
    case Array(elements, pad) => ValidElements(elements) && Whitespace(pad)
    case Object(members, pad) => ValidMembers(members) && Whitespace(pad)
  }

  predicate ValidElements(es: Elements) {
    match es
    case NoElements => true
    case Element(before, value, after, rest) =>
      Whitespace(before) && ValidValue(value) && Whitespace(after) && ValidElements(rest)
  }

  predicate ValidMembers(ms: Members) {
    match ms
    case NoMembers => true
    case Member(before, name, colonBefore, colonAfter, value, after, rest) =>
      Whitespace(before) && ValidChars(name) && Whitespace(colonBefore) && Whitespace(colonAfter)
      && ValidValue(value) && Whitespace(after) && ValidMembers(rest)
  }

  function WriteChars(chars: seq<Char>): Bytes {
    if chars == [] then []
    else (match chars[0] case Plain(byte) => [byte] case Escape(tail) => [BACKSLASH] + tail) + WriteChars(chars[1..])
  }

  function WriteText(chars: seq<Char>): Bytes {
    [QUOTE] + (WriteChars(chars) + [QUOTE])
  }

  function Write(v: Value): Bytes {
    match v
    case Scalar(token) => token
    case Text(chars) => WriteText(chars)
    case Array(elements, pad) => [OPEN_ARRAY] + (WriteElements(elements) + (pad + [CLOSE_ARRAY]))
    case Object(members, pad) => [OPEN_OBJECT] + (WriteMembers(members) + (pad + [CLOSE_OBJECT]))
  }

  function WriteElements(es: Elements): Bytes {
    match es
    case NoElements => []
    case Element(before, value, after, rest) =>
      before + (Write(value) + (after + (Separator(rest.NoElements?) + WriteElements(rest))))
  }

  function WriteMembers(ms: Members): Bytes {
    match ms
    case NoMembers => []
    case Member(before, name, colonBefore, colonAfter, value, after, rest) =>
      before + (WriteText(name) + (colonBefore + ([COLON] + (colonAfter
      + (Write(value) + (after + (Separator(rest.NoMembers?) + WriteMembers(rest))))))))
  }

  function Separator(last: bool): Bytes {
    if last then [] else [COMMA]
  }

  /** Containers inside one another. */
  function Nesting(v: Value): nat {
    match v
    case Scalar(_) => 0
    case Text(_) => 0
    case Array(elements, _) => 1 + ElementsNesting(elements)
    case Object(members, _) => 1 + MembersNesting(members)
  }

  function ElementsNesting(es: Elements): nat {
    match es
    case NoElements => 0
    case Element(_, value, _, rest) => Max(Nesting(value), ElementsNesting(rest))
  }

  function MembersNesting(ms: Members): nat {
    match ms
    case NoMembers => 0
    case Member(_, _, _, _, value, _, rest) => Max(Nesting(value), MembersNesting(rest))
  }

  // ----- The scan over what the grammar writes -----

  /** `text` leaves an unquoted scan as it was, having gone `deeper` levels down. */
  predicate Balanced(text: Bytes, deeper: nat, depth: int) {
    After(Scan(depth, false, false), text) == Scan(depth, false, false)
    && Deepest(Scan(depth, false, false), text) == depth + deeper
  }

  lemma {:induction false} AfterAppend(s: Scan, a: Bytes, b: Bytes)
    ensures After(s, a + b) == After(After(s, a), b)
    ensures Deepest(s, a + b) == Max(Deepest(s, a), Deepest(After(s, a), b))
    decreases |a|
  {
    if a == [] {
      assert a + b == b;
      DeepestAtLeast(s, b);
    } else {
      assert (a + b)[0] == a[0] && (a + b)[1..] == a[1..] + b;
      AfterAppend(Next(s, a[0]), a[1..], b);
    }
  }

  lemma BalancedAppend(a: Bytes, b: Bytes, da: nat, db: nat, depth: int)
    requires Balanced(a, da, depth) && Balanced(b, db, depth)
    ensures Balanced(a + b, Max(da, db), depth)
  {
    AfterAppend(Scan(depth, false, false), a, b);
  }

  lemma {:induction false} QuietText(text: Bytes, depth: int)
    requires forall i :: 0 <= i < |text| ==>
               text[i] != QUOTE && text[i] != OPEN_ARRAY && text[i] != OPEN_OBJECT
               && text[i] != CLOSE_ARRAY && text[i] != CLOSE_OBJECT
    ensures Balanced(text, 0, depth)
  {
    if text != [] {
      QuietText(text[1..], depth);
    }
  }

  /** Inside a string nothing moves the depth, and every character leaves the scan quoted and unescaped. */
  lemma {:induction false} CharsStayQuoted(chars: seq<Char>, depth: int)
    requires ValidChars(chars)
    ensures After(Scan(depth, true, false), WriteChars(chars)) == Scan(depth, true, false)
    ensures Deepest(Scan(depth, true, false), WriteChars(chars)) == depth
    decreases |chars|
  {
    if chars != [] {
      var inside, rest := Scan(depth, true, false), WriteChars(chars[1..]);
      assert ValidChar(chars[0]);
      CharsStayQuoted(chars[1..], depth);
      match chars[0] {
        case Plain(byte) =>
          AfterAppend(inside, [byte], rest);
        case Escape(tail) =>
          EscapeStaysQuoted(tail, depth);
          AfterAppend(inside, [BACKSLASH] + tail, rest);
      }
    }
  }

  lemma EscapeStaysQuoted(tail: Bytes, depth: int)
    requires ValidChar(Escape(tail))
    ensures After(Scan(depth, true, false), [BACKSLASH] + tail) == Scan(depth, true, false)
    ensures Deepest(Scan(depth, true, false), [BACKSLASH] + tail) == depth
  {
    assert ([BACKSLASH] + tail)[1..] == tail;
    PlainTail(tail[1..], depth);
  }

  lemma {:induction false} PlainTail(text: Bytes, depth: int)
    requires forall i :: 0 <= i < |text| ==> text[i] != QUOTE && text[i] != BACKSLASH
    ensures After(Scan(depth, true, false), text) == Scan(depth, true, false)
    ensures Deepest(Scan(depth, true, false), text) == depth
    decreases |text|
  {
    if text != [] {
      PlainTail(text[1..], depth);
    }
  }

  lemma TextIsBalanced(chars: seq<Char>, depth: int)
    requires ValidChars(chars)
    ensures Balanced(WriteText(chars), 0, depth)
  {
    var body := WriteChars(chars);
    CharsStayQuoted(chars, depth);
    AfterAppend(Scan(depth, true, false), body, [QUOTE]);
    assert WriteText(chars)[1..] == body + [QUOTE];
  }

  /** A bracket pair adds one level around what it holds. */
  lemma BracketsAddOne(open: Byte, body: Bytes, close: Byte, deeper: nat, depth: int)
    requires (open == OPEN_ARRAY && close == CLOSE_ARRAY) || (open == OPEN_OBJECT && close == CLOSE_OBJECT)
    requires Balanced(body, deeper, depth + 1)
    ensures Balanced([open] + (body + [close]), deeper + 1, depth)
  {
    AfterAppend(Scan(depth + 1, false, false), body, [close]);
    assert ([open] + (body + [close]))[1..] == body + [close];
  }

  /** Every value the grammar writes is balanced, and goes exactly as deep as its containers nest. */
  lemma {:induction false} ValueIsBalanced(v: Value, depth: int)
    requires ValidValue(v)
    ensures Balanced(Write(v), Nesting(v), depth)
  {
    match v {
      case Scalar(token) => QuietText(token, depth);
      case Text(chars) => TextIsBalanced(chars, depth);
      case Array(elements, pad) =>
        ElementsAreBalanced(elements, depth + 1);
        QuietText(pad, depth + 1);
        BalancedAppend(WriteElements(elements), pad, ElementsNesting(elements), 0, depth + 1);
        BracketsAddOne(OPEN_ARRAY, WriteElements(elements) + pad, CLOSE_ARRAY, ElementsNesting(elements), depth);
        assert WriteElements(elements) + (pad + [CLOSE_ARRAY]) == (WriteElements(elements) + pad) + [CLOSE_ARRAY];
      case Object(members, pad) =>
        MembersAreBalanced(members, depth + 1);
        QuietText(pad, depth + 1);
        BalancedAppend(WriteMembers(members), pad, MembersNesting(members), 0, depth + 1);
        BracketsAddOne(OPEN_OBJECT, WriteMembers(members) + pad, CLOSE_OBJECT, MembersNesting(members), depth);
        assert WriteMembers(members) + (pad + [CLOSE_OBJECT]) == (WriteMembers(members) + pad) + [CLOSE_OBJECT];
    }
  }

  lemma {:induction false} ElementsAreBalanced(es: Elements, depth: int)
    requires ValidElements(es)
    ensures Balanced(WriteElements(es), ElementsNesting(es), depth)
  {
    match es {
      case NoElements =>
      case Element(before, value, after, rest) =>
        ValueIsBalanced(value, depth);
        ElementsAreBalanced(rest, depth);
        TailIsBalanced(after, Separator(rest.NoElements?), WriteElements(rest), ElementsNesting(rest), depth);
        var tail := after + (Separator(rest.NoElements?) + WriteElements(rest));
        BalancedAppend(Write(value), tail, Nesting(value), ElementsNesting(rest), depth);
        QuietText(before, depth);
        BalancedAppend(before, Write(value) + tail, 0, ElementsNesting(es), depth);
    }
  }

  /** Whitespace and a separator in front of more text change nothing. */
  lemma TailIsBalanced(after: Bytes, separator: Bytes, more: Bytes, deeper: nat, depth: int)
    requires Whitespace(after) && (separator == [] || separator == [COMMA]) && Balanced(more, deeper, depth)
    ensures Balanced(after + (separator + more), deeper, depth)
  {
    QuietText(separator, depth);
    BalancedAppend(separator, more, 0, deeper, depth);
    QuietText(after, depth);
    BalancedAppend(after, separator + more, 0, deeper, depth);
  }

  lemma {:induction false} MembersAreBalanced(ms: Members, depth: int)
    requires ValidMembers(ms)
    ensures Balanced(WriteMembers(ms), MembersNesting(ms), depth)
  {
    match ms {
      case NoMembers =>
      case Member(before, name, colonBefore, colonAfter, value, after, rest) =>
        ValueIsBalanced(value, depth);
        MembersAreBalanced(rest, depth);
        TailIsBalanced(after, Separator(rest.NoMembers?), WriteMembers(rest), MembersNesting(rest), depth);
        var tail := after + (Separator(rest.NoMembers?) + WriteMembers(rest));
        BalancedAppend(Write(value), tail, Nesting(value), MembersNesting(rest), depth);
        NameIsBalanced(before, name, colonBefore, colonAfter, Write(value) + tail, MembersNesting(ms), depth);
    }
  }

  lemma NameIsBalanced(before: Bytes, name: seq<Char>, colonBefore: Bytes, colonAfter: Bytes, more: Bytes,
                       deeper: nat, depth: int)
    requires Whitespace(before) && ValidChars(name) && Whitespace(colonBefore) && Whitespace(colonAfter)
    requires Balanced(more, deeper, depth)
    ensures Balanced(before + (WriteText(name) + (colonBefore + ([COLON] + (colonAfter + more)))), deeper, depth)
  {
    QuietText(colonAfter, depth);
    BalancedAppend(colonAfter, more, 0, deeper, depth);
    QuietText([COLON], depth);
    BalancedAppend([COLON], colonAfter + more, 0, deeper, depth);
    QuietText(colonBefore, depth);
    BalancedAppend(colonBefore, [COLON] + (colonAfter + more), 0, deeper, depth);
    TextIsBalanced(name, depth);
    BalancedAppend(WriteText(name), colonBefore + ([COLON] + (colonAfter + more)), 0, deeper, depth);
    QuietText(before, depth);
    BalancedAppend(before, WriteText(name) + (colonBefore + ([COLON] + (colonAfter + more))), 0, deeper, depth);
  }

  /**
   For every document of the grammar, brackets and escapes inside its strings
   included, the scan ends unquoted at depth zero, its greatest depth is the
   document's nesting, and so it accepts exactly nesting up to 64.
   */
  lemma DocumentDepthIsItsNesting(before: Bytes, v: Value, after: Bytes)
    requires Whitespace(before) && ValidValue(v) && Whitespace(after)
    ensures var document := before + (Write(v) + after);
            && After(Scan(0, false, false), document) == Scan(0, false, false)
            && Deepest(Scan(0, false, false), document) == Nesting(v)
  {
    ValueIsBalanced(v, 0);
    QuietText(before, 0);
    QuietText(after, 0);
    BalancedAppend(Write(v), after, Nesting(v), 0, 0);
    BalancedAppend(before, Write(v) + after, 0, Nesting(v), 0);
  }

  /** The scan of a written document. */
  method AcceptDocument(before: Bytes, v: Value, after: Bytes) returns (ok: bool)
    requires Whitespace(before) && ValidValue(v) && Whitespace(after)
    ensures ok <==> Nesting(v) <= 64
  {
    DocumentDepthIsItsNesting(before, v, after);
    ok := WithinNesting(before + (Write(v) + after));
  }
}

/** The canonical JSON text every digest is taken over (`serialization.canonical`):
    sorted keys, no spaces, non-ASCII characters left as they are. */
module CanonicalJson {
  /** A JSON value without floating-point numbers. The members of an object are
      listed in key order, which is what `sort_keys` writes. */
  datatype Json =
    | Null
    | Bool(b: bool)
    | Num(n: int)
    | Str(s: string)
    | Arr(items: seq<Json>)
    | Obj(members: seq<Member>)

  datatype Member = Member(key: string, value: Json)

  const HEX: string := "0123456789abcdef"

  // ---------------------------------------------------------------------
  // Text of each kind of value
  // ---------------------------------------------------------------------

  function Digit(d: int): char
    requires 0 <= d < 10
  {
    '0' + d as char
  }

  predicate IsDigit(c: char) {
    '0' <= c <= '9'
  }

  function Decimal(n: nat): (text: string)
    ensures |text| > 0
    ensures forall i :: 0 <= i < |text| ==> IsDigit(text[i])
  {
    if n < 10 then [Digit(n)] else Decimal(n / 10) + [Digit(n % 10)]
  }

  function Number(n: int): string {
    if n < 0 then "-" + Decimal(-n) else Decimal(n)
  }

  /** The escape of one character; control characters never appear raw. */
  function EscapeChar(c: char): string {
    if c == '"' then "\\\""
    else if c == '\\' then "\\\\"
    else if c == '\n' then "\\n"
    else if c == '\r' then "\\r"
    else if c == '\t' then "\\t"
    else if c as int == 8 then "\\b"
    else if c as int == 12 then "\\f"
    else if c as int < 32 then "\\u00" + [HEX[c as int / 16], HEX[c as int % 16]]
    else [c]
  }

  function Escape(s: string): string {
    if s == "" then "" else EscapeChar(s[0]) + Escape(s[1..])
  }

  function Quote(s: string): string {
    "\"" + Escape(s) + "\""
  }

  function Canonical(j: Json): string {
    match j
    case Null => "null"
    case Bool(b) => if b then "true" else "false"
    case Num(n) => Number(n)
    case Str(s) => Quote(s)
    case Arr(items) => "[" + Items(items) + "]"
    case Obj(members) => "{" + Members(members) + "}"
  }

  function Items(items: seq<Json>): string {
    if items == [] then ""
    else Canonical(items[0]) + (if |items| == 1 then "" else "," + Items(items[1..]))
  }

  function Members(members: seq<Member>): string {
    if members == [] then ""
    else Pair(members[0]) + (if |members| == 1 then "" else "," + Members(members[1..]))
  }

  function Pair(m: Member): string {
    Quote(m.key) + ":" + Canonical(m.value)
  }

  // ---------------------------------------------------------------------
  // Unambiguity: a canonical text followed by a delimiter determines the value
  // ---------------------------------------------------------------------

  /** What may follow a value: nothing, or a character no number continues with. */
  predicate Delimited(rest: string) {
    rest == "" || !IsDigit(rest[0])
  }

  function ParseDecimal(text: string): int {
    if text == "" then 0
    else ParseDecimal(text[..|text| - 1]) * 10 + (text[|text| - 1] as int - '0' as int)
  }

  lemma {:induction false} ParseOfDecimal(n: nat)
    ensures ParseDecimal(Decimal(n)) == n
    decreases n
  {
    var text := Decimal(n);
    if n >= 10 {
      ParseOfDecimal(n / 10);
      assert text[..|text| - 1] == Decimal(n / 10);
    } else {
      assert text[..|text| - 1] == "";
    }
  }

  lemma {:induction false} Assoc(a: string, b: string, c: string)
    ensures (a + b) + c == a + (b + c)
  {
  }

  lemma {:induction false} EmptyHead(s: string)
    ensures "" + s == s
  {
  }

  lemma {:induction false} Cancel(p: string, s: string, t: string)
    requires p + s == p + t
    ensures s == t
  {
    assert s == (p + s)[|p|..] == (p + t)[|p|..] == t;
  }

  /** A longer run of digits shows a digit where the shorter one ended. */
  lemma {:induction false} LongerRun(a: string, b: string, s: string, t: string)
    requires a + s == b + t
    requires forall i :: 0 <= i < |a| ==> IsDigit(a[i])
    requires |a| > |b|
    ensures |t| > 0 && IsDigit(t[0])
  {
    assert (a + s)[|b|] == (b + t)[|b|];
  }

  lemma {:induction false} DecimalUnambiguous(m: nat, n: nat, s: string, t: string)
    requires Decimal(m) + s == Decimal(n) + t
    requires Delimited(s) && Delimited(t)
    ensures m == n && s == t
  {
    var a, b := Decimal(m), Decimal(n);
    if |a| < |b| {
      LongerRun(b, a, t, s);
    } else if |b| < |a| {
      LongerRun(a, b, s, t);
    } else {
      assert a == (a + s)[..|a|] == (b + t)[..|a|] == b;
      Cancel(a, s, t);
      ParseOfDecimal(m);
      ParseOfDecimal(n);
    }
  }

  lemma {:induction false} NumberUnambiguous(m: int, n: int, s: string, t: string)
    requires Number(m) + s == Number(n) + t
    requires Delimited(s) && Delimited(t)
    ensures m == n && s == t
  {
    NumberSign(m, s);
    NumberSign(n, t);
    if m < 0 {
      Assoc("-", Decimal(-m), s);
      Assoc("-", Decimal(-n), t);
      Cancel("-", Decimal(-m) + s, Decimal(-n) + t);
      DecimalUnambiguous(-m, -n, s, t);
    } else {
      DecimalUnambiguous(m, n, s, t);
    }
  }

  lemma {:induction false} NumberSign(m: int, s: string)
    ensures |Number(m)| > 0
    ensures m < 0 <==> (Number(m) + s)[0] == '-'
  {
    if m >= 0 {
      assert IsDigit(Decimal(m)[0]);
    }
  }

  lemma {:induction false} EscapeCharUnambiguous(c: char, d: char, s: string, t: string)
    requires EscapeChar(c) + s == EscapeChar(d) + t
    ensures c == d && s == t
  {
    var a, b := EscapeChar(c), EscapeChar(d);
    assert (a + s)[0] == (b + t)[0];
    if |a| == 1 || |b| == 1 {
      assert a == [c] && b == [d];
    } else {
      assert (a + s)[1] == (b + t)[1];
      if |a| == 6 {
        assert |b| == 6;
        assert (a + s)[4] == (b + t)[4] && (a + s)[5] == (b + t)[5];
        HexInjective(c as int / 16, d as int / 16);
        HexInjective(c as int % 16, d as int % 16);
        assert c as int == d as int;
      }
    }
    assert a == b;
    assert s == (a + s)[|a|..] == t;
  }

  lemma {:induction false} HexInjective(x: nat, y: nat)
    requires x < 16 && y < 16
    requires HEX[x] == HEX[y]
    ensures x == y
  {
  }

  /** A quoted text ends at its first raw quote. */
  lemma {:induction false} EscapeHead(x: string, s: string)
    ensures x == "" <==> (Escape(x) + ("\"" + s))[0] == '"'
    ensures x != "" ==>
      Escape(x) + ("\"" + s) == EscapeChar(x[0]) + (Escape(x[1..]) + ("\"" + s))
  {
    if x != "" {
      Assoc(EscapeChar(x[0]), Escape(x[1..]), "\"" + s);
    }
  }

  lemma {:induction false} EscapeUnambiguous(x: string, y: string, s: string, t: string)
    requires Escape(x) + ("\"" + s) == Escape(y) + ("\"" + t)
    ensures x == y && s == t
  {
    EscapeHead(x, s);
    EscapeHead(y, t);
    if x == "" {
      EmptyHead("\"" + s);
      EmptyHead("\"" + t);
      Cancel("\"", s, t);
    } else {
      EscapeCharUnambiguous(x[0], y[0], Escape(x[1..]) + ("\"" + s), Escape(y[1..]) + ("\"" + t));
      EscapeUnambiguous(x[1..], y[1..], s, t);
      assert x == [x[0]] + x[1..] && y == [y[0]] + y[1..];
    }
  }

  lemma {:induction false} QuoteUnambiguous(x: string, y: string, s: string, t: string)
    requires Quote(x) + s == Quote(y) + t
    ensures x == y && s == t
  {
    QuoteParts(x, s);
    QuoteParts(y, t);
    Cancel("\"", Escape(x) + ("\"" + s), Escape(y) + ("\"" + t));
    EscapeUnambiguous(x, y, s, t);
  }

  lemma {:induction false} QuoteParts(x: string, s: string)
    ensures Quote(x) + s == "\"" + (Escape(x) + ("\"" + s))
  {
    Assoc("\"" + Escape(x), "\"", s);
    Assoc("\"", Escape(x), "\"" + s);
  }

  /** The first character of a value's text tells its kind apart. */
  lemma {:induction false} FirstChar(j: Json)
    ensures |Canonical(j)| > 0
    ensures var c := Canonical(j)[0];
      && (c == 'n' <==> j.Null?)
      && (c == 't' <==> j == Bool(true))
      && (c == 'f' <==> j == Bool(false))
      && (c == '"' <==> j.Str?)
      && (c == '[' <==> j.Arr?)
      && (c == '{' <==> j.Obj?)
      && c != ']' && c != '}'
  {
  }

  /** What follows the first element of an array or object body. */
  function After(last: bool, more: string, close: string, rest: string): string {
    if last then close + rest else "," + (more + (close + rest))
  }

  lemma {:induction false} AfterUnambiguous(last: bool, last': bool, more: string, more': string, close: string, s: string, t: string)
    requires close == "]" || close == "}"
    requires After(last, more, close, s) == After(last', more', close, t)
    ensures last == last'
    ensures last ==> s == t
    ensures !last ==> more + (close + s) == more' + (close + t)
  {
    var p, q := After(last, more, close, s), After(last', more', close, t);
    assert last <==> p[0] == close[0];
    assert last' <==> q[0] == close[0];
    if last {
      Cancel(close, s, t);
    } else {
      Cancel(",", more + (close + s), more' + (close + t));
    }
  }

  lemma {:induction false} ItemsHead(a: seq<Json>, s: string)
    requires a != []
    ensures Items(a) + ("]" + s) == Canonical(a[0]) + After(|a| == 1, Items(a[1..]), "]", s)
    ensures Delimited(After(|a| == 1, Items(a[1..]), "]", s))
  {
    if |a| > 1 {
      Assoc(Canonical(a[0]), "," + Items(a[1..]), "]" + s);
      Assoc(",", Items(a[1..]), "]" + s);
    }
  }

  lemma {:induction false} MembersHead(a: seq<Member>, s: string)
    requires a != []
    ensures Members(a) + ("}" + s)
         == Quote(a[0].key) + (":" + (Canonical(a[0].value) + After(|a| == 1, Members(a[1..]), "}", s)))
    ensures Delimited(After(|a| == 1, Members(a[1..]), "}", s))
  {
    var after, key, value := After(|a| == 1, Members(a[1..]), "}", s), Quote(a[0].key), Canonical(a[0].value);
    if |a| > 1 {
      Assoc(Pair(a[0]), "," + Members(a[1..]), "}" + s);
      Assoc(",", Members(a[1..]), "}" + s);
    } else {
      assert Members(a) == Pair(a[0]);
    }
    PairParts(key, value, after);
  }

  lemma {:induction false} PairParts(key: string, value: string, after: string)
    ensures (key + ":" + value) + after == key + (":" + (value + after))
  {
    Assoc(key + ":", value, after);
    Assoc(key, ":", value + after);
  }

  /** Main lemma: equal texts mean equal values and equal remainders. */
  lemma {:induction false} Unambiguous(a: Json, b: Json, s: string, t: string)
    requires Canonical(a) + s == Canonical(b) + t
    requires Delimited(s) && Delimited(t)
    ensures a == b && s == t
    decreases a, 1
  {
    FirstChar(a);
    FirstChar(b);
    assert (Canonical(a) + s)[0] == Canonical(a)[0] && (Canonical(b) + t)[0] == Canonical(b)[0];
    match a {
      case Num(_) => NumberUnambiguous(a.n, b.n, s, t);
      case Str(_) => QuoteUnambiguous(a.s, b.s, s, t);
      case Arr(_) => ArrUnambiguous(a, b, s, t);
      case Obj(_) => ObjUnambiguous(a, b, s, t);
      case _ => Cancel(Canonical(a), s, t);
    }
  }

  lemma {:induction false} ArrUnambiguous(a: Json, b: Json, s: string, t: string)
    requires a.Arr? && b.Arr?
    requires Canonical(a) + s == Canonical(b) + t
    ensures a == b && s == t
    decreases a, 0
  {
    BracketParts("[", Items(a.items), "]", s);
    BracketParts("[", Items(b.items), "]", t);
    Cancel("[", Items(a.items) + ("]" + s), Items(b.items) + ("]" + t));
    ItemsUnambiguous(a.items, b.items, s, t);
  }

  lemma {:induction false} ObjUnambiguous(a: Json, b: Json, s: string, t: string)
    requires a.Obj? && b.Obj?
    requires Canonical(a) + s == Canonical(b) + t
    ensures a == b && s == t
    decreases a, 0
  {
    BracketParts("{", Members(a.members), "}", s);
    BracketParts("{", Members(b.members), "}", t);
    Cancel("{", Members(a.members) + ("}" + s), Members(b.members) + ("}" + t));
    MembersUnambiguous(a.members, b.members, s, t);
  }

  lemma {:induction false} BracketParts(open: string, body: string, close: string, s: string)
    ensures (open + body + close) + s == open + (body + (close + s))
  {
    Assoc(open + body, close, s);
    Assoc(open, body, close + s);
  }

  lemma {:induction false} ItemsUnambiguous(a: seq<Json>, b: seq<Json>, s: string, t: string)
    requires Items(a) + ("]" + s) == Items(b) + ("]" + t)
    ensures a == b && s == t
    decreases a
  {
    EmptyItems(a, s);
    EmptyItems(b, t);
    if a == [] {
      EmptyHead("]" + s);
      EmptyHead("]" + t);
      Cancel("]", s, t);
    } else {
      var p, q := After(|a| == 1, Items(a[1..]), "]", s), After(|b| == 1, Items(b[1..]), "]", t);
      ItemsHead(a, s);
      ItemsHead(b, t);
      Unambiguous(a[0], b[0], p, q);
      AfterUnambiguous(|a| == 1, |b| == 1, Items(a[1..]), Items(b[1..]), "]", s, t);
      if |a| > 1 {
        ItemsUnambiguous(a[1..], b[1..], s, t);
      }
      assert a == [a[0]] + a[1..] && b == [b[0]] + b[1..];
    }
  }

  lemma {:induction false} EmptyItems(a: seq<Json>, s: string)
    ensures a == [] <==> (Items(a) + ("]" + s))[0] == ']'
  {
    if a != [] {
      FirstChar(a[0]);
    }
  }

  lemma {:induction false} MembersUnambiguous(a: seq<Member>, b: seq<Member>, s: string, t: string)
    requires Members(a) + ("}" + s) == Members(b) + ("}" + t)
    ensures a == b && s == t
    decreases a
  {
    assert a == [] <==> (Members(a) + ("}" + s))[0] == '}';
    assert b == [] <==> (Members(b) + ("}" + t))[0] == '}';
    if a == [] {
      EmptyHead("}" + s);
      EmptyHead("}" + t);
      Cancel("}", s, t);
    } else {
      var p, q := After(|a| == 1, Members(a[1..]), "}", s), After(|b| == 1, Members(b[1..]), "}", t);
      var v, w := Canonical(a[0].value) + p, Canonical(b[0].value) + q;
      MembersHead(a, s);
      MembersHead(b, t);
      QuoteUnambiguous(a[0].key, b[0].key, ":" + v, ":" + w);
      Cancel(":", v, w);
      MemberUnambiguous(a[0], b[0], p, q);
      AfterUnambiguous(|a| == 1, |b| == 1, Members(a[1..]), Members(b[1..]), "}", s, t);
      if |a| > 1 {
        MembersUnambiguous(a[1..], b[1..], s, t);
      }
      assert a == [a[0]] + a[1..] && b == [b[0]] + b[1..];
    }
  }

  lemma {:induction false} MemberUnambiguous(a: Member, b: Member, s: string, t: string)
    requires Canonical(a.value) + s == Canonical(b.value) + t
    requires Delimited(s) && Delimited(t)
    ensures a.value == b.value && s == t
    decreases a
  {
    Unambiguous(a.value, b.value, s, t);
  }

  /** Distinct values have distinct canonical texts. */
  lemma {:induction false} CanonicalInjective(a: Json, b: Json)
    requires Canonical(a) == Canonical(b)
    ensures a == b
  {
    assert Canonical(a) + "" == Canonical(b) + "";
    Unambiguous(a, b, "", "");
  }

  // ---------------------------------------------------------------------
  // Canonical text is one line
  // ---------------------------------------------------------------------

  predicate Printable(text: string) {
    forall i :: 0 <= i < |text| ==> text[i] as int >= 32
  }

  lemma {:induction false} EscapeCharPrintable(c: char)
    ensures Printable(EscapeChar(c))
  {
    if c as int < 32 {
      assert HEX[c as int / 16] as int >= 32 && HEX[c as int % 16] as int >= 32;
    }
  }

  lemma {:induction false} EscapePrintable(s: string)
    ensures Printable(Escape(s))
  {
    if s != "" {
      EscapeCharPrintable(s[0]);
      EscapePrintable(s[1..]);
    }
  }

  /** Canonical JSON holds no raw control character, hence no newline. */
  lemma {:induction false} CanonicalPrintable(j: Json)
    ensures Printable(Canonical(j))
    decreases j, 1
  {
    match j {
      case Str(s) => EscapePrintable(s);
      case Arr(items) => ItemsPrintable(items);
      case Obj(members) => MembersPrintable(members);
      case _ =>
    }
  }

  lemma {:induction false} ItemsPrintable(items: seq<Json>)
    ensures Printable(Items(items))
    decreases items, 0
  {
    if items != [] {
      CanonicalPrintable(items[0]);
      ItemsPrintable(items[1..]);
    }
  }

  lemma {:induction false} MembersPrintable(members: seq<Member>)
    ensures Printable(Members(members))
    decreases members, 0
  {
    if members != [] {
      EscapePrintable(members[0].key);
      CanonicalPrintable(members[0].value);
      MembersPrintable(members[1..]);
    }
  }

  // ---------------------------------------------------------------------
  // The text itself
  // ---------------------------------------------------------------------

  /** `separator.join(texts)`. */
  function Join(texts: seq<string>, separator: string): string {
    if texts == [] then "" else if |texts| == 1 then texts[0] else texts[0] + separator + Join(texts[1..], separator)
  }

  /** The number reads back from its digits, and none of them is a leading zero. */
  lemma {:induction false} DecimalExact(n: nat)
    ensures ParseDecimal(Decimal(n)) == n && (|Decimal(n)| > 1 ==> Decimal(n)[0] != '0')
    decreases n
  {
    ParseOfDecimal(n);
    if n >= 10 {
      DecimalExact(n / 10);
    }
  }

  /** The escapes of section 7 of RFC 8259: two characters where there is a short form, four
      hexadecimal digits for other control characters, and everything else as it is. */
  lemma {:induction false} EscapeExact(c: char)
    ensures c == '"' ==> EscapeChar(c) == ['\\', '"']
    ensures c == '\\' ==> EscapeChar(c) == ['\\', '\\']
    ensures c as int == 8 ==> EscapeChar(c) == ['\\', 'b']
    ensures c as int == 9 ==> EscapeChar(c) == ['\\', 't']
    ensures c as int == 10 ==> EscapeChar(c) == ['\\', 'n']
    ensures c as int == 12 ==> EscapeChar(c) == ['\\', 'f']
    ensures c as int == 13 ==> EscapeChar(c) == ['\\', 'r']
    ensures c as int < 8 ==> EscapeChar(c) == ['\\', 'u', '0', '0', '0', '0' + c]
    ensures c as int == 11 ==> EscapeChar(c) == ['\\', 'u', '0', '0', '0', 'b']
    ensures 14 <= c as int < 16 ==> EscapeChar(c) == ['\\', 'u', '0', '0', '0', 'a' + (c as int - 10) as char]
    ensures 16 <= c as int < 26 ==> EscapeChar(c) == ['\\', 'u', '0', '0', '1', '0' + (c as int - 16) as char]
    ensures 26 <= c as int < 32 ==> EscapeChar(c) == ['\\', 'u', '0', '0', '1', 'a' + (c as int - 26) as char]
    ensures c as int >= 32 && c != '"' && c != '\\' ==> EscapeChar(c) == [c]
  {
  }

  function Escapes(s: string): (texts: seq<string>)
    ensures |texts| == |s| && forall i :: 0 <= i < |s| ==> texts[i] == EscapeChar(s[i])
  {
    seq(|s|, i requires 0 <= i < |s| => EscapeChar(s[i]))
  }

  lemma {:induction false} QuoteExact(s: string)
    ensures Quote(s) == "\"" + Join(Escapes(s), "") + "\""
  {
    EscapedExact(s);
  }

  lemma {:induction false} EscapedExact(s: string)
    ensures Escape(s) == Join(Escapes(s), "")
  {
    if s != "" {
      EscapedExact(s[1..]);
      assert Escapes(s)[1..] == Escapes(s[1..]);
      EmptyHead(Join(Escapes(s[1..]), ""));
    }
  }

  function Texts(items: seq<Json>): (texts: seq<string>)
    ensures |texts| == |items| && forall i :: 0 <= i < |items| ==> texts[i] == Canonical(items[i])
  {
    seq(|items|, i requires 0 <= i < |items| => Canonical(items[i]))
  }

  function Pairs(members: seq<Member>): (texts: seq<string>)
    ensures |texts| == |members|
    ensures forall i :: 0 <= i < |members| ==> texts[i] == Quote(members[i].key) + ":" + Canonical(members[i].value)
  {
    seq(|members|, i requires 0 <= i < |members| => Quote(members[i].key) + ":" + Canonical(members[i].value))
  }

  lemma {:induction false} ItemsExact(items: seq<Json>)
    ensures Items(items) == Join(Texts(items), ",")
  {
    if |items| > 1 {
      ItemsExact(items[1..]);
      assert Texts(items)[1..] == Texts(items[1..]);
      Assoc(Canonical(items[0]), ",", Items(items[1..]));
    }
  }

  lemma {:induction false} MembersExact(members: seq<Member>)
    ensures Members(members) == Join(Pairs(members), ",")
  {
    if |members| > 1 {
      MembersExact(members[1..]);
      assert Pairs(members)[1..] == Pairs(members[1..]);
      Assoc(Pair(members[0]), ",", Members(members[1..]));
    }
  }

  /** What is written for each kind of value. */
  lemma {:induction false} CanonicalExact(j: Json)
    ensures j.Null? ==> Canonical(j) == "null"
    ensures j.Bool? ==> Canonical(j) == if j.b then "true" else "false"
    ensures j.Num? ==> Canonical(j) == if j.n >= 0 then Decimal(j.n) else "-" + Decimal(-j.n)
    ensures j.Str? ==> Canonical(j) == Quote(j.s)
    ensures j.Arr? ==> Canonical(j) == "[" + Join(Texts(j.items), ",") + "]"
    ensures j.Obj? ==> Canonical(j) == "{" + Join(Pairs(j.members), ",") + "}"
  {
    if j.Arr? {
      ItemsExact(j.items);
    }
    if j.Obj? {
      MembersExact(j.members);
    }
  }
}

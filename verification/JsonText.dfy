/**
 The JSON text of a normal form, as `canonical_bytes` writes it (compact, keys sorted, non-ASCII characters
 unescaped), and the reader behind `parse_json_object` for JSON texts as in sections 2 to 7 of RFC 8259.
 Text is a sequence of code points; `None` stands for a raised CanonicalizationError.
 */
module JsonText {
  import opened Base
  import opened Ordering
  import opened Canonical
  import Kernel

  // ----- Writing; `t` is the text that follows -----

  function Digit(d: nat): char
    requires d < 10
  {
    ['0', '1', '2', '3', '4', '5', '6', '7', '8', '9'][d]
  }

  function HexDigit(d: nat): char
    requires d < 16
  {
    if d < 10 then Digit(d) else ['a', 'b', 'c', 'd', 'e', 'f'][d - 10]
  }

  function Decimal(n: nat): string {
    if n < 10 then [Digit(n)] else Decimal(n / 10) + [Digit(n % 10)]
  }

  function PutInt(n: int, t: string): string {
    if n < 0 then ['-'] + (Decimal(-n) + t) else Decimal(n) + t
  }

  function PutChar(c: char, t: string): string {
    if c == '\"' then ['\\', '\"'] + t
    else if c == '\\' then ['\\', '\\'] + t
    else if c == '\n' then ['\\', 'n'] + t
    else if c == '\r' then ['\\', 'r'] + t
    else if c == '\t' then ['\\', 't'] + t
    else if c == '\U{0c}' then ['\\', 'f'] + t
    else if c == '\U{08}' then ['\\', 'b'] + t
    else if c < ' ' then ['\\', 'u', '0', '0', HexDigit(c as int / 16), HexDigit(c as int % 16)] + t
    else [c] + t
  }

  /** The characters of a string and its closing quote. */
  function PutChars(s: string, t: string): string {
    if s == [] then ['\"'] + t else PutChar(s[0], PutChars(s[1..], t))
  }

  function PutString(s: string, t: string): string {
    ['\"'] + PutChars(s, t)
  }

  function Put(j: Json, t: string): string
    decreases j, 1, 0
  {
    match j
    case JNull => "null" + t
    case JBool(b) => (if b then "true" else "false") + t
    case JInt(n) => PutInt(n, t)
    case JStr(s) => PutString(s, t)
    case JList(items) => if items == [] then "[]" + t else ['['] + PutItems(j, 0, t)
    case JObject(m) => if m == map[] then "{}" + t else
      SortedAscends(m.Keys);
      ['{'] + PutMembers(j, 0, t)
  }

  /** The items from the `i`-th on, and the closing bracket. */
  function PutItems(j: Json, i: nat, t: string): string
    requires j.JList? && i < |j.items|
    decreases j, 0, |j.items| - i
  {
    Put(j.items[i], if i + 1 == |j.items| then [']'] + t else [','] + PutItems(j, i + 1, t))
  }

  function PutMembers(j: Json, i: nat, t: string): string
    requires j.JObject? && i < |Sorted(j.members.Keys)|
    decreases j, 0, |Sorted(j.members.Keys)| - i
  {
    var keys := Sorted(j.members.Keys);
    SortedHasElements(j.members.Keys);
    assert keys[i] in keys;
    PutString(keys[i],
      [':'] + Put(j.members[keys[i]], if i + 1 == |keys| then ['}'] + t else [','] + PutMembers(j, i + 1, t)))
  }

  /** `canonical_bytes`. */
  ghost function Bytes(nfc: Nfc, v: Value): Option<string> {
    match Canon(nfc, v) case None => None case Some(j) => Some(Put(j, ""))
  }

  // ----- Reading -----

  predicate Blank(c: char) {
    c == ' ' || c == '\t' || c == '\n' || c == '\r'
  }

  /** The text after any white space. */
  function Skip(s: string): (r: string)
    ensures |r| <= |s|
  {
    if s != [] && Blank(s[0]) then Skip(s[1..]) else s
  }

  predicate IsDigit(c: char) {
    '0' <= c <= '9'
  }

  /** How many digits the text starts with. */
  function DigitCount(s: string): (n: nat)
    ensures n <= |s| && forall i | 0 <= i < n :: IsDigit(s[i])
  {
    if s != [] && IsDigit(s[0]) then 1 + DigitCount(s[1..]) else 0
  }

  function DigitValue(c: char): nat {
    if IsDigit(c) then c as int - '0' as int else 0
  }

  function Natural(ds: string): nat {
    if ds == [] then 0 else 10 * Natural(ds[..|ds| - 1]) + DigitValue(ds[|ds| - 1])
  }

  /** `x` times ten to the power `e`. */
  function Scale(x: real, e: int): real
    decreases if e < 0 then -e else e
  {
    if e > 0 then Scale(x * 10.0, e - 1) else if e < 0 then Scale(x / 10.0, e + 1) else x
  }

  /** The digits after `.`, if there are any. */
  function Fraction(s: string): (n: nat)
    ensures n > 0 ==> n < |s|
  {
    if s != [] && s[0] == '.' then DigitCount(s[1..]) else 0
  }

  function SignLength(s: string): nat {
    if |s| > 1 && (s[1] == '+' || s[1] == '-') then 1 else 0
  }

  /** The digits after `e` or `E` and an optional sign, if there are any. */
  function Exponent(s: string): (n: nat)
    ensures n > 0 ==> 1 + SignLength(s) + n <= |s|
  {
    if s == [] || (s[0] != 'e' && s[0] != 'E') then 0 else DigitCount(s[1 + SignLength(s)..])
  }

  function Negated(n: int, negative: bool): int {
    if negative then -n else n
  }

  /** The exponent's value and the text after it. */
  function ParseExponent(s: string): (r: (int, string))
    ensures |r.1| <= |s|
  {
    var (e, start) := (Exponent(s), 1 + SignLength(s));
    if e == 0 then (0, s)
    else (Negated(Natural(s[start..start + e]), s[1] == '-'), s[start + e..])
  }

  /** A number without its sign: an integer unless a fraction or an exponent follows. */
  function ParseNumber(s: string, negative: bool): (r: Option<(Value, string)>)
    ensures r.Some? ==> |r.value.1| < |s|
  {
    var n := DigitCount(s);
    if n == 0 then None
    else
      var k := if s[0] == '0' then 1 else n;
      var rest := s[k..];
      var f := Fraction(rest);
      if f == 0 && Exponent(rest) == 0 then Some((Int(Negated(Natural(s[..k]), negative)), rest))
      else
        var digits := s[..k] + if f > 0 then rest[1..f + 1] else "";
        var (power, after) := ParseExponent(if f > 0 then rest[f + 1..] else rest);
        var x := Scale(Natural(digits) as real, power - f);
        Some((Float(Finite(if negative then -x else x)), after))
  }

  function HexValue(c: char): Option<nat> {
    if '0' <= c <= '9' then Some(c as int - '0' as int)
    else if 'a' <= c <= 'f' then Some(c as int - 'a' as int + 10)
    else if 'A' <= c <= 'F' then Some(c as int - 'A' as int + 10)
    else None
  }

  /** Four hexadecimal digits. */
  function Hex4(s: string): (r: Option<nat>)
    ensures r.Some? ==> r.value < 0x10000 && |s| >= 4
  {
    if |s| < 4 then None
    else
      var (a, b, c, d) := (HexValue(s[0]), HexValue(s[1]), HexValue(s[2]), HexValue(s[3]));
      if a.Some? && b.Some? && c.Some? && d.Some? && a.value < 16 && b.value < 16 && c.value < 16 && d.value < 16 then
        Some(4096 * a.value + 256 * b.value + 16 * c.value + d.value)
      else None
  }

  /** What follows a backslash; a pair of surrogate escapes is one character. */
  function Unescape(s: string): (r: Option<(char, string)>)
    ensures r.Some? ==> |r.value.1| < |s|
  {
    if s == [] then None
    else if s[0] == '\"' || s[0] == '\\' || s[0] == '/' then Some((s[0], s[1..]))
    else if s[0] == 'b' then Some(('\U{08}', s[1..]))
    else if s[0] == 'f' then Some(('\U{0c}', s[1..]))
    else if s[0] == 'n' then Some(('\n', s[1..]))
    else if s[0] == 'r' then Some(('\r', s[1..]))
    else if s[0] == 't' then Some(('\t', s[1..]))
    else if s[0] != 'u' then None
    else
      match Hex4(s[1..])
      case None => None
      case Some(hi) =>
        if hi < 0xD800 || 0xE000 <= hi then Some((hi as char, s[5..]))
        else if hi < 0xDC00 && |s| >= 7 && s[5] == '\\' && s[6] == 'u' then
          match Hex4(s[7..])
          case Some(lo) =>
            if 0xDC00 <= lo < 0xE000 then Some(((0x10000 + 1024 * (hi - 0xD800) + (lo - 0xDC00)) as char, s[11..]))
            else None
          case None => None
        else None
  }

  /** The rest of a string, after its opening quote. */
  function Scan(s: string): (r: Option<(string, string)>)
    ensures r.Some? ==> |r.value.1| < |s|
    decreases |s|
  {
    if s == [] || s[0] < ' ' then None
    else if s[0] == '\"' then Some(([], s[1..]))
    else
      var first := if s[0] == '\\' then Unescape(s[1..]) else Some((s[0], s[1..]));
      match first
      case None => None
      case Some(f) =>
        match Scan(f.1)
        case None => None
        case Some(r) => Some(([f.0] + r.0, r.1))
  }

  predicate Starts(s: string, word: string) {
    |s| >= |word| && s[..|word|] == word
  }

  /** A value; duplicate keys of an object are rejected. */
  function Parse(s: string): (r: Option<(Value, string)>)
    ensures r.Some? ==> |r.value.1| < |s|
    decreases |s|, 0
  {
    if s == [] then None
    else if s[0] == '\"' then
      (match Scan(s[1..]) case None => None case Some(r) => Some((Str(r.0), r.1)))
    else if s[0] == '{' then
      var u := Skip(s[1..]);
      if u != [] && u[0] == '}' then Some((Dict([]), u[1..]))
      else
        (match ParseMembers(u)
         case None => None
         case Some(r) => if OneKeyTwice(r.0) then None else Some((Dict(r.0), r.1)))
    else if s[0] == '[' then
      var u := Skip(s[1..]);
      if u != [] && u[0] == ']' then Some((List([]), u[1..]))
      else (match ParseItems(u) case None => None case Some(r) => Some((List(r.0), r.1)))
    else if Starts(s, "null") then Some((Null, s[4..]))
    else if Starts(s, "true") then Some((Bool(true), s[4..]))
    else if Starts(s, "false") then Some((Bool(false), s[5..]))
    else if Starts(s, "NaN") then Some((Float(NonFinite), s[3..]))
    else if Starts(s, "Infinity") then Some((Float(NonFinite), s[8..]))
    else if Starts(s, "-Infinity") then Some((Float(NonFinite), s[9..]))
    else if s[0] == '-' then ParseNumber(s[1..], true)
    else ParseNumber(s, false)
  }

  /** One or more items up to the closing bracket. */
  function ParseItems(s: string): (r: Option<(seq<Value>, string)>)
    ensures r.Some? ==> |r.value.1| < |s|
    decreases |s|, 1
  {
    match Parse(s)
    case None => None
    case Some(first) =>
      var u := Skip(first.1);
      if u == [] then None
      else if u[0] == ']' then Some(([first.0], u[1..]))
      else if u[0] != ',' then None
      else
        match ParseItems(Skip(u[1..]))
        case None => None
        case Some(r) => Some(([first.0] + r.0, r.1))
  }

  /** One or more members up to the closing brace. */
  function ParseMembers(s: string): (r: Option<(seq<Entry>, string)>)
    ensures r.Some? ==> |r.value.1| < |s|
    decreases |s|, 1
  {
    if s == [] || s[0] != '\"' then None
    else
      match Scan(s[1..])
      case None => None
      case Some(name) =>
        var c := Skip(name.1);
        if c == [] || c[0] != ':' then None
        else
          match Parse(Skip(c[1..]))
          case None => None
          case Some(first) =>
            var e := Entry(Text(name.0), first.0);
            var u := Skip(first.1);
            if u == [] then None
            else if u[0] == '}' then Some(([e], u[1..]))
            else if u[0] != ',' then None
            else
              match ParseMembers(Skip(u[1..]))
              case None => None
              case Some(r) => Some(([e] + r.0, r.1))
  }

  /** `parse_json_object`. */
  function Document(s: string): Option<Value> {
    match Parse(Skip(s))
    case None => None
    case Some(r) => if Skip(r.1) == [] then Some(r.0) else None
  }

  // ----- Reading what was written -----

  lemma DigitFacts(d: nat)
    requires d < 10
    ensures IsDigit(Digit(d)) && DigitValue(Digit(d)) == d && (Digit(d) == '0' <==> d == 0)
  {}

  lemma {:induction false} DecimalFacts(n: nat)
    ensures forall i | 0 <= i < |Decimal(n)| :: IsDigit(Decimal(n)[i])
    ensures Natural(Decimal(n)) == n
    ensures |Decimal(n)| > 0 && (Decimal(n)[0] == '0' ==> n == 0)
    ensures n == 0 ==> Decimal(n) == ['0']
  {
    var q, d := n / 10, n % 10;
    assert n == 10 * q + d;
    DigitFacts(d);
    hide Digit, IsDigit, DigitValue;
    if n < 10 {
      assert Decimal(n) == [Digit(d)] && Decimal(n)[..0] == [];
    } else {
      DecimalFacts(q);
      assert Decimal(n) == Decimal(q) + [Digit(d)];
      assert Decimal(n)[..|Decimal(n)| - 1] == Decimal(q);
    }
  }

  lemma {:induction false} CountsDigits(ds: string, t: string)
    requires forall i | 0 <= i < |ds| :: IsDigit(ds[i])
    requires t == [] || !IsDigit(t[0])
    ensures DigitCount(ds + t) == |ds|
  {
    if ds == [] {
      assert ds + t == t;
    } else {
      assert (ds + t)[1..] == ds[1..] + t;
      CountsDigits(ds[1..], t);
    }
  }

  /** What may follow a value: nothing, a comma or a closing bracket. */
  predicate Follows(t: string) {
    t == [] || t[0] == ',' || t[0] == ']' || t[0] == '}'
  }

  lemma ReadsNat(n: nat, t: string, negative: bool)
    requires Follows(t)
    ensures ParseNumber(Decimal(n) + t, negative) == Some((Int(Negated(n, negative)), t))
  {
    var ds := Decimal(n);
    DecimalFacts(n);
    CountsDigits(ds, t);
    assert (ds + t)[0] == ds[0];
    assert (ds + t)[..|ds|] == ds && (ds + t)[|ds|..] == t;
    assert Fraction(t) == 0 && Exponent(t) == 0;
  }

  lemma StartsOtherwise(s: string, word: string, i: nat)
    requires i < |s| && i < |word| && s[i] != word[i]
    ensures !Starts(s, word)
  {
    assert |s| >= |word| ==> s[..|word|][i] == s[i];
  }

  lemma ParsesNumber(s: string)
    requires s != []
    requires IsDigit(s[0]) || (s[0] == '-' && |s| > 1 && IsDigit(s[1]))
    ensures Parse(s) == if s[0] == '-' then ParseNumber(s[1..], true) else ParseNumber(s, false)
  {
    hide ParseNumber, Scan, ParseItems, ParseMembers, Starts, OneKeyTwice, Skip;
    StartsOtherwise(s, "null", 0);
    StartsOtherwise(s, "true", 0);
    StartsOtherwise(s, "false", 0);
    StartsOtherwise(s, "NaN", 0);
    StartsOtherwise(s, "Infinity", 0);
    StartsOtherwise(s, "-Infinity", if s[0] == '-' then 1 else 0);
  }

  lemma ReadsInt(n: int, t: string)
    requires Follows(t)
    ensures Parse(PutInt(n, t)) == Some((Int(n), t))
    ensures PutInt(n, t) != [] && (PutInt(n, t)[0] == '-' || IsDigit(PutInt(n, t)[0]))
  {
    var s := PutInt(n, t);
    var ds := Decimal(if n < 0 then -n else n);
    DecimalFacts(if n < 0 then -n else n);
    ReadsNat(if n < 0 then -n else n, t, n < 0);
    assert (ds + t)[0] == ds[0];
    if n < 0 {
      assert s[1..] == ds + t && s[1] == ds[0];
    }
    ParsesNumber(s);
    hide ParseNumber, Decimal, Parse;
  }

  lemma HexOfDigit(d: nat)
    requires d < 16
    ensures HexValue(HexDigit(d)) == Some(d)
  {}

  lemma ReadsChar(c: char, t: string)
    requires Scan(t).Some?
    ensures Scan(PutChar(c, t)) == Some(([c] + Scan(t).value.0, Scan(t).value.1))
  {
    var s := PutChar(c, t);
    if c < ' ' && s[1] == 'u' {
      var n := c as int;
      HexOfDigit(n / 16);
      HexOfDigit(n % 16);
      HexOfDigit(0);
      assert s[1..][1..][..4] == ['0', '0', HexDigit(n / 16), HexDigit(n % 16)];
      assert Hex4(s[1..][1..]) == Some(16 * (n / 16) + n % 16);
      assert s[1..][5..] == t;
      assert Unescape(s[1..]) == Some((c, t));
    } else if s[0] == '\\' {
      assert s[1..][1..] == t;
      assert Unescape(s[1..]) == Some((c, t));
    } else {
      assert s[1..] == t;
    }
  }

  lemma {:induction false} ReadsChars(x: string, t: string)
    ensures Scan(PutChars(x, t)) == Some((x, t))
  {
    if x == [] {
      assert (['\"'] + t)[1..] == t;
    } else {
      assert PutChars(x, t) == PutChar(x[0], PutChars(x[1..], t));
      assert [x[0]] + x[1..] == x;
      ReadsChars(x[1..], t);
      hide PutChar, PutChars, Scan;
      ReadsChar(x[0], PutChars(x[1..], t));
    }
  }

  // ----- The round trip -----

  lemma ReadsString(x: string, t: string)
    ensures Parse(PutString(x, t)) == Some((Str(x), t)) && PutString(x, t)[0] == '\"'
    ensures Scan(PutString(x, t)[1..]) == Some((x, t))
  {
    ReadsChars(x, t);
    assert PutString(x, t)[1..] == PutChars(x, t);
    hide Scan, PutChars, ParseMembers, ParseItems, ParseNumber, Starts;
  }

  lemma ReadsWord(j: Json, t: string)
    requires j.JNull? || j.JBool?
    ensures Parse(Put(j, t)) == Some((AsValue(j), t))
  {
    var word := if j.JNull? then "null" else if j.flag then "true" else "false";
    var s := word + t;
    assert s == Put(j, t) && s[..|word|] == word && s[|word|..] == t;
    StartsOtherwise(s, if j.JNull? then "true" else "null", 0);
    StartsOtherwise(s, if j.JNull? || j.flag then "false" else "true", 0);
    hide Scan, ParseMembers, ParseItems, ParseNumber;
  }

  /** A written value begins with a character that is neither blank nor a closing bracket. */
  lemma Opens(j: Json, t: string)
    requires Follows(t)
    ensures Put(j, t) != []
    ensures var c := Put(j, t)[0]; !Blank(c) && c != ']' && c != '}'
  {
    if j.JInt? {
      ReadsInt(j.n, t);
    }
    hide PutInt, PutChars, PutItems, PutMembers, Decimal, Sorted, Parse;
  }

  lemma SkipNothing(s: string)
    requires s == [] || !Blank(s[0])
    ensures Skip(s) == s
  {}

  lemma ParsesList(s: string, r: (seq<Value>, string))
    requires |s| > 1 && s[0] == '[' && !Blank(s[1]) && s[1] != ']'
    requires ParseItems(s[1..]) == Some(r)
    ensures Parse(s) == Some((List(r.0), r.1))
  {
    SkipNothing(s[1..]);
    hide ParseItems, ParseMembers, Scan, ParseNumber, Starts;
  }

  lemma ParsesDict(s: string, r: (seq<Entry>, string))
    requires |s| > 1 && s[0] == '{' && s[1] == '\"'
    requires ParseMembers(s[1..]) == Some(r) && !OneKeyTwice(r.0)
    ensures Parse(s) == Some((Dict(r.0), r.1))
  {
    SkipNothing(s[1..]);
    hide ParseItems, ParseMembers, Scan, ParseNumber, Starts, OneKeyTwice;
  }

  lemma ParsesEmpty(t: string)
    ensures Parse("[]" + t) == Some((List([]), t)) && Parse("{}" + t) == Some((Dict([]), t))
  {
    assert ("[]" + t)[1..] == "]" + t && ("]" + t)[1..] == t;
    assert ("{}" + t)[1..] == "}" + t && ("}" + t)[1..] == t;
    SkipNothing("]" + t);
    SkipNothing("}" + t);
    hide ParseItems, ParseMembers, Scan, ParseNumber, Starts, OneKeyTwice;
  }

  /** Every written value is read back, whatever may follow it. */
  lemma {:induction false} Reads(j: Json, t: string)
    requires Follows(t)
    ensures Parse(Put(j, t)) == Some((AsValue(j), t))
    decreases j, 1, 0
  {
    match j
    case JNull => ReadsWord(j, t);
    case JBool(_) => ReadsWord(j, t);
    case JInt(n) => ReadsInt(n, t);
    case JStr(x) => ReadsString(x, t);
    case JList(items) =>
      if items == [] {
        ParsesEmpty(t);
        hide Parse;
        assert AsValue(j).items == [];
      } else {
        ReadsItems(j, 0, t);
        assert AsValue(j).items[0..] == AsValue(j).items;
        hide Parse, ParseItems, PutItems;
        assert Put(j, t)[1..] == PutItems(j, 0, t);
        ParsesList(Put(j, t), (AsValue(j).items, t));
      }
    case JObject(m) =>
      if m == map[] {
        ParsesEmpty(t);
        hide Parse;
        EntriesOfObject(m);
        assert AsValue(j).entries == [];
      } else {
        SortedAscends(m.Keys);
        ReadsMembers(j, 0, t);
        EntriesOfObject(m);
        assert AsValue(j).entries[0..] == AsValue(j).entries;
        hide Parse, ParseMembers, PutMembers, Sorted;
        assert Put(j, t)[1..] == PutMembers(j, 0, t);
        ParsesDict(Put(j, t), (AsValue(j).entries, t));
      }
  }

  lemma {:induction false} ReadsItems(j: Json, i: nat, t: string)
    requires j.JList? && i < |j.items|
    ensures ParseItems(PutItems(j, i, t)) == Some((AsValue(j).items[i..], t))
    ensures PutItems(j, i, t) != []
    ensures var c := PutItems(j, i, t)[0]; !Blank(c) && c != ']'
    decreases j, 0, |j.items| - i
  {
    var x, values := j.items[i], AsValue(j).items;
    assert values[i] == AsValue(x);
    if i + 1 == |j.items| {
      Reads(x, [']'] + t);
      Opens(x, [']'] + t);
      assert values[i..] == [values[i]];
      hide Parse, Put, AsValue, Blank;
      LastItem(Put(x, [']'] + t), values[i], t);
    } else {
      var more := PutItems(j, i + 1, t);
      ReadsItems(j, i + 1, t);
      Reads(x, [','] + more);
      Opens(x, [','] + more);
      SplitAt(values, i);
      hide Parse, Put, ParseItems, AsValue, Blank;
      NextItem(Put(x, [','] + more), values[i], more, values[i + 1..], t);
    }
  }

  lemma LastItem(s: string, v: Value, t: string)
    requires Parse(s) == Some((v, [']'] + t))
    ensures ParseItems(s) == Some(([v], t))
  {
    SkipNothing([']'] + t);
    assert ([']'] + t)[1..] == t;
    hide Parse;
  }

  lemma NextItem(s: string, v: Value, more: string, vs: seq<Value>, t: string)
    requires Parse(s) == Some((v, [','] + more)) && more != [] && !Blank(more[0])
    requires ParseItems(more) == Some((vs, t))
    ensures ParseItems(s) == Some(([v] + vs, t))
  {
    SkipNothing([','] + more);
    assert ([','] + more)[1..] == more;
    SkipNothing(more);
    hide Parse;
  }

  ghost predicate MembersRead(j: Json, i: nat, t: string)
    requires j.JObject? && i < |Sorted(j.members.Keys)|
  {
    && AsValue(j).Dict? && |AsValue(j).entries| == |Sorted(j.members.Keys)|
    && ParseMembers(PutMembers(j, i, t)) == Some((AsValue(j).entries[i..], t))
    && PutMembers(j, i, t) != [] && PutMembers(j, i, t)[0] == '\"'
  }

  lemma {:induction false} ReadsMembers(j: Json, i: nat, t: string)
    requires j.JObject? && i < |Sorted(j.members.Keys)|
    ensures MembersRead(j, i, t)
    decreases j, 0, |Sorted(j.members.Keys)| - i
  {
    hide MembersRead, AsValue, Parse, Put, PutMembers, ParseMembers, Sorted;
    MemberAt(j, i);
    var x := j.members[Sorted(j.members.Keys)[i]];
    if i + 1 == |Sorted(j.members.Keys)| {
      Reads(x, ['}'] + t);
      LastMemberRead(j, i, t);
    } else {
      ReadsMembers(j, i + 1, t);
      Reads(x, [','] + PutMembers(j, i + 1, t));
      NextMemberRead(j, i, t);
    }
  }

  lemma LastMemberRead(j: Json, i: nat, t: string)
    requires j.JObject? && i + 1 == |Sorted(j.members.Keys)| && Sorted(j.members.Keys)[i] in j.members
    requires var x := j.members[Sorted(j.members.Keys)[i]]; Parse(Put(x, ['}'] + t)) == Some((AsValue(x), ['}'] + t))
    ensures MembersRead(j, i, t)
  {
    var keys, entries := Sorted(j.members.Keys), AsValue(j).entries;
    MemberAt(j, i);
    MembersStep(j, i, t);
    var x := j.members[keys[i]];
    Opens(x, ['}'] + t);
    hide Parse, Put, AsValue, Sorted, PutString, Blank, PutMembers, Scan, ParseMembers;
    LastMember(keys[i], Put(x, ['}'] + t), entries[i].value, t);
    assert entries[i..] == [entries[i]];
  }

  lemma NextMemberRead(j: Json, i: nat, t: string)
    requires j.JObject? && i + 1 < |Sorted(j.members.Keys)| && Sorted(j.members.Keys)[i] in j.members
    requires MembersRead(j, i + 1, t)
    requires var (x, rest) := (j.members[Sorted(j.members.Keys)[i]], [','] + PutMembers(j, i + 1, t));
             Parse(Put(x, rest)) == Some((AsValue(x), rest))
    ensures MembersRead(j, i, t)
  {
    var keys, entries := Sorted(j.members.Keys), AsValue(j).entries;
    var more := PutMembers(j, i + 1, t);
    MemberAt(j, i);
    MembersStep(j, i, t);
    var x := j.members[keys[i]];
    Opens(x, [','] + more);
    SplitAt(entries, i);
    hide Parse, Put, AsValue, Sorted, PutString, Blank, PutMembers, Scan, ParseMembers;
    NextMember(keys[i], Put(x, [','] + more), entries[i].value, more, entries[i + 1..], t);
  }

  lemma SplitAt<T>(s: seq<T>, i: nat)
    requires i < |s|
    ensures s[i..] == [s[i]] + s[i + 1..]
  {}

  lemma MemberAt(j: Json, i: nat)
    requires j.JObject? && i < |Sorted(j.members.Keys)|
    ensures var (keys, v) := (Sorted(j.members.Keys), AsValue(j));
            && keys[i] in j.members && v.Dict? && |v.entries| == |keys|
            && v.entries[i] == Entry(Text(keys[i]), AsValue(j.members[keys[i]]))
  {
    EntriesOfObject(j.members);
    hide Sorted;
  }

  lemma MembersStep(j: Json, i: nat, t: string)
    requires j.JObject? && i < |Sorted(j.members.Keys)|
    requires Sorted(j.members.Keys)[i] in j.members
    ensures var keys := Sorted(j.members.Keys);
            PutMembers(j, i, t) ==
              PutString(keys[i],
                [':'] + Put(j.members[keys[i]], if i + 1 == |keys| then ['}'] + t else [','] + PutMembers(j, i + 1, t)))
  {
    hide Sorted, Put, PutString;
  }

  /** After a key and its colon. */
  lemma ReadsKey(key: string, s: string)
    requires s != [] && !Blank(s[0])
    ensures var u := PutString(key, [':'] + s);
            && u != [] && u[0] == '\"' && Scan(u[1..]) == Some((key, [':'] + s))
            && Skip([':'] + s) == [':'] + s && ([':'] + s)[1..] == s && Skip(s) == s
  {
    ReadsString(key, [':'] + s);
    SkipNothing([':'] + s);
    SkipNothing(s);
    hide Scan, Parse, PutChars;
  }

  lemma LastMember(key: string, s: string, v: Value, t: string)
    requires s != [] && !Blank(s[0]) && Parse(s) == Some((v, ['}'] + t))
    ensures ParseMembers(PutString(key, [':'] + s)) == Some(([Entry(Text(key), v)], t))
    ensures PutString(key, [':'] + s)[0] == '\"'
  {
    ReadsKey(key, s);
    SkipNothing(['}'] + t);
    assert (['}'] + t)[1..] == t;
    hide Parse, Scan, PutString, Skip, Blank;
  }

  lemma NextMember(key: string, s: string, v: Value, more: string, es: seq<Entry>, t: string)
    requires s != [] && !Blank(s[0]) && Parse(s) == Some((v, [','] + more))
    requires more != [] && more[0] == '\"' && ParseMembers(more) == Some((es, t))
    ensures ParseMembers(PutString(key, [':'] + s)) == Some(([Entry(Text(key), v)] + es, t))
    ensures PutString(key, [':'] + s)[0] == '\"'
  {
    ReadsKey(key, s);
    SkipNothing([','] + more);
    assert ([','] + more)[1..] == more;
    SkipNothing(more);
    hide Parse, Scan, PutString, Skip, Blank;
  }

  // ----- Main results -----

  function Verbatim(s: string): string {
    s
  }

  lemma {:induction false} SettledVerbatim(j: Json)
    ensures Settled(Verbatim, j)
  {
    match j
    case JList(items) =>
      forall i | 0 <= i < |items| ensures Settled(Verbatim, items[i]) {
        SettledVerbatim(items[i]);
      }
    case JObject(m) =>
      forall k | k in m ensures Settled(Verbatim, m[k]) {
        SettledVerbatim(m[k]);
      }
    case _ =>
  }

  /**
   `parse_json_object` of the canonical bytes gives back the normal form: read as a plain value, and just as
   well after normalising once more.
   */
  lemma ParsesBack(nfc: Nfc, v: Value)
    requires Normaliser(nfc) && Bytes(nfc, v).Some?
    ensures var parsed := Document(Bytes(nfc, v).value);
            && parsed.Some?
            && Canon(Verbatim, parsed.value) == Canon(nfc, v)
            && Canon(nfc, parsed.value) == Canon(nfc, v)
            && Bytes(nfc, parsed.value) == Bytes(nfc, v)
  {
    var j := Form(nfc, v);
    Reads(j, "");
    Opens(j, "");
    SkipNothing(Put(j, ""));
    Idempotent(nfc, v);
    SettledVerbatim(j);
    FormOfAsValue(Verbatim, j);
    hide Parse, Put, Form, Supported, AsValue;
  }

  /** Two values have the same canonical bytes exactly when they have the same normal form. */
  lemma BytesExactly(nfc: Nfc, v: Value, w: Value)
    requires Normaliser(nfc)
    ensures Bytes(nfc, v) == Bytes(nfc, w) <==> Canon(nfc, v) == Canon(nfc, w)
  {
    if Bytes(nfc, v) == Bytes(nfc, w) && Bytes(nfc, v).Some? {
      ParsesBack(nfc, v);
      ParsesBack(nfc, w);
    }
    hide Document, Put, Form, Supported;
  }

  /** `reject_duplicate_keys`: the dictionary of the pairs, or an error exactly when a key repeats. */
  method RejectDuplicateKeys(pairs: seq<Entry>) returns (out: Option<map<Key, Value>>)
    ensures out.None? <==> OneKeyTwice(pairs)
    ensures out.Some? ==> out.value.Keys == set i | 0 <= i < |pairs| :: pairs[i].key
    ensures out.Some? ==> forall i | 0 <= i < |pairs| :: pairs[i].key in out.value && out.value[pairs[i].key] == pairs[i].value
  {
    var m: map<Key, Value> := map[];
    for i := 0 to |pairs|
      invariant m.Keys == set j | 0 <= j < i :: pairs[j].key
      invariant forall j | 0 <= j < i :: pairs[j].key in m && m[pairs[j].key] == pairs[j].value
      invariant forall j, k | 0 <= j < k < i :: pairs[j].key != pairs[k].key
    {
      if pairs[i].key in m {
        return None;
      }
      m := m[pairs[i].key := pairs[i].value];
    }
    return Some(m);
  }

  // ----- The text, spelled out -----

  /** How a character stands in a string: quotes, backslashes and controls are escaped, nothing else is. */
  function Escaped(c: char): string {
    var n := c as int;
    if n == 0x22 then "\\\"" else if n == 0x5c then "\\\\"
    else if n == 0x08 then "\\b" else if n == 0x09 then "\\t" else if n == 0x0a then "\\n"
    else if n == 0x0c then "\\f" else if n == 0x0d then "\\r"
    else if n < 0x20 then "\\u00" + ["01"[n / 16], "0123456789abcdef"[n % 16]]
    else [c]
  }

  lemma CharText(c: char, t: string)
    ensures PutChar(c, t) == Escaped(c) + t
  {
    if c < ' ' {
      assert HexDigit(c as int / 16) == "01"[c as int / 16];
      assert HexDigit(c as int % 16) == "0123456789abcdef"[c as int % 16];
    }
  }

  /** The accumulator is only that. */
  lemma {:induction false} CharsAppend(x: string, t: string)
    ensures PutChars(x, t) == PutChars(x, "") + t
  {
    if x != [] {
      CharsAppend(x[1..], t);
      CharText(x[0], PutChars(x[1..], t));
      CharText(x[0], PutChars(x[1..], ""));
      hide PutChar, Escaped;
    }
  }

  lemma StringAppends(x: string, t: string)
    ensures PutString(x, t) == PutString(x, "") + t
  {
    CharsAppend(x, t);
    hide PutChars;
  }

  lemma {:induction false} PutAppends(j: Json, t: string)
    ensures Put(j, t) == Put(j, "") + t
    decreases j, 1, 0
  {
    match j
    case JStr(x) => StringAppends(x, t);
    case JList(items) =>
      if items != [] {
        ItemsAppend(j, 0, t);
      }
    case JObject(m) =>
      if m != map[] {
        SortedAscends(m.Keys);
        MembersAppend(j, 0, t);
      }
    case _ =>
  }

  lemma {:induction false} ItemsAppend(j: Json, i: nat, t: string)
    requires j.JList? && i < |j.items|
    ensures PutItems(j, i, t) == PutItems(j, i, "") + t
    decreases j, 0, |j.items| - i
  {
    var x := j.items[i];
    if i + 1 == |j.items| {
      PutAppends(x, "]" + t);
      PutAppends(x, "]");
      hide Put;
      assert [']'] + "" == "]";
    } else {
      ItemsAppend(j, i + 1, t);
      var more := PutItems(j, i + 1, "");
      PutAppends(x, "," + (more + t));
      PutAppends(x, "," + more);
      hide Put;
      assert Put(x, "") + ("," + (more + t)) == Put(x, "") + ("," + more) + t;
    }
  }

  /** One member and what follows it. */
  function PutMember(key: string, x: Json, t: string): string {
    PutString(key, "") + ":" + Put(x, "") + t
  }

  lemma MemberAppends(key: string, x: Json, t: string)
    requires Put(x, t) == Put(x, "") + t
    ensures PutString(key, ":" + Put(x, t)) == PutMember(key, x, t)
  {
    StringAppends(key, ":" + Put(x, t));
    hide Put, PutString;
    assert PutString(key, "") + (":" + (Put(x, "") + t)) == PutString(key, "") + ":" + Put(x, "") + t;
  }

  /** What follows the `i`-th member. */
  function AfterMember(j: Json, i: nat, t: string): string
    requires j.JObject? && i < |Sorted(j.members.Keys)|
  {
    if i + 1 == |Sorted(j.members.Keys)| then "}" + t else "," + PutMembers(j, i + 1, t)
  }

  lemma MembersAreOneByOne(j: Json, i: nat, t: string)
    requires j.JObject? && i < |Sorted(j.members.Keys)| && Sorted(j.members.Keys)[i] in j.members
    requires var x := j.members[Sorted(j.members.Keys)[i]];
             Put(x, AfterMember(j, i, t)) == Put(x, "") + AfterMember(j, i, t)
    ensures var key := Sorted(j.members.Keys)[i];
            PutMembers(j, i, t) == PutMember(key, j.members[key], AfterMember(j, i, t))
  {
    var key := Sorted(j.members.Keys)[i];
    MembersStep(j, i, t);
    MemberAppends(key, j.members[key], AfterMember(j, i, t));
    hide Put, PutString, PutMembers, Sorted, PutMember;
  }

  lemma {:induction false} MembersAppend(j: Json, i: nat, t: string)
    requires j.JObject? && i < |Sorted(j.members.Keys)|
    ensures PutMembers(j, i, t) == PutMembers(j, i, "") + t
    decreases j, 0, |Sorted(j.members.Keys)| - i
  {
    MemberAt(j, i);
    var key := Sorted(j.members.Keys)[i];
    var x := j.members[key];
    if i + 1 < |Sorted(j.members.Keys)| {
      MembersAppend(j, i + 1, t);
    }
    PutAppends(x, AfterMember(j, i, t));
    PutAppends(x, AfterMember(j, i, ""));
    MembersAreOneByOne(j, i, t);
    MembersAreOneByOne(j, i, "");
    AfterAppends(j, i, t);
    TailAppends(key, x, AfterMember(j, i, ""), t);
    hide *;
  }

  lemma AfterAppends(j: Json, i: nat, t: string)
    requires j.JObject? && i < |Sorted(j.members.Keys)|
    requires i + 1 < |Sorted(j.members.Keys)| ==> PutMembers(j, i + 1, t) == PutMembers(j, i + 1, "") + t
    ensures AfterMember(j, i, t) == AfterMember(j, i, "") + t
  {
    hide PutMembers, Sorted;
  }

  lemma TailAppends(key: string, x: Json, a: string, t: string)
    ensures PutMember(key, x, a + t) == PutMember(key, x, a) + t
  {
    hide Put, PutString;
  }

  /** The texts with commas between them. */
  function Joined(texts: seq<string>): string {
    if texts == [] then "" else if |texts| == 1 then texts[0] else texts[0] + "," + Joined(texts[1..])
  }

  /** The texts of the items from the `i`-th on. */
  function ItemTexts(j: Json, i: nat): (texts: seq<string>)
    requires j.JList? && i <= |j.items|
    ensures |texts| == |j.items| - i && forall k | 0 <= k < |texts| :: texts[k] == Put(j.items[i + k], "")
  {
    seq(|j.items| - i, k requires 0 <= k < |j.items| - i => Put(j.items[i + k], ""))
  }

  lemma {:induction false} ItemsJoined(j: Json, i: nat)
    requires j.JList? && i < |j.items|
    ensures PutItems(j, i, "") == Joined(ItemTexts(j, i)) + "]"
    decreases |j.items| - i
  {
    var x := j.items[i];
    hide Put, ItemTexts;
    if i + 1 == |j.items| {
      PutAppends(x, "]");
      assert [']'] + "" == "]" && ItemTexts(j, i) == [Put(x, "")];
    } else {
      ItemsJoined(j, i + 1);
      PutAppends(x, "," + PutItems(j, i + 1, ""));
      assert ItemTexts(j, i) == [Put(x, "")] + ItemTexts(j, i + 1);
      JoinedStep(Put(x, ""), ItemTexts(j, i + 1));
      hide Joined;
    }
  }

  lemma JoinedStep(text: string, texts: seq<string>)
    requires texts != []
    ensures Joined([text] + texts) == text + "," + Joined(texts)
  {
    assert ([text] + texts)[1..] == texts;
  }

  /** A list is its items between brackets, with commas. */
  lemma ListText(items: seq<Json>)
    ensures Put(JList(items), "") == "[" + Joined(seq(|items|, i requires 0 <= i < |items| => Put(items[i], ""))) + "]"
  {
    var j := JList(items);
    if items != [] {
      ItemsJoined(j, 0);
      assert ItemTexts(j, 0) == seq(|items|, i requires 0 <= i < |items| => Put(items[i], ""));
      hide Joined, PutItems;
    }
  }

  /** The text of one member. */
  function MemberText(m: map<string, Json>, key: string): string
    requires key in m
  {
    PutString(key, "") + ":" + Put(m[key], "")
  }

  function MemberTexts(m: map<string, Json>, keys: seq<string>): (texts: seq<string>)
    requires forall k | k in keys :: k in m
    ensures |texts| == |keys|
  {
    if keys == [] then [] else [MemberText(m, keys[0])] + MemberTexts(m, keys[1..])
  }

  lemma {:induction false} MemberTextsAt(m: map<string, Json>, keys: seq<string>, i: nat)
    requires i < |keys| && forall k | k in keys :: k in m
    ensures MemberTexts(m, keys)[i] == MemberText(m, keys[i])
  {
    hide MemberText;
    if i > 0 {
      MemberTextsAt(m, keys[1..], i - 1);
    }
  }

  lemma {:induction false} MembersJoined(j: Json, i: nat)
    requires j.JObject? && i < |Sorted(j.members.Keys)|
    requires forall k | k in Sorted(j.members.Keys) :: k in j.members
    ensures PutMembers(j, i, "") == Joined(MemberTexts(j.members, Sorted(j.members.Keys)[i..])) + "}"
    decreases |Sorted(j.members.Keys)| - i
  {
    var keys := Sorted(j.members.Keys);
    hide Put, PutString, PutMembers, Sorted, MemberTexts, MemberText, Joined, PutMember;
    assert keys[i] in keys;
    PutAppends(j.members[keys[i]], AfterMember(j, i, ""));
    MembersAreOneByOne(j, i, "");
    if i + 1 < |keys| {
      MembersJoined(j, i + 1);
    }
    SplitAt(keys, i);
    MemberJoins(j.members, keys[i], keys[i + 1..]);
  }

  /** One more member in front. */
  lemma MemberJoins(m: map<string, Json>, key: string, rest: seq<string>)
    requires key in m && forall k | k in rest :: k in m
    ensures Joined(MemberTexts(m, [key] + rest)) ==
      MemberText(m, key) + if rest == [] then "" else "," + Joined(MemberTexts(m, rest))
    ensures forall t :: PutMember(key, m[key], t) == MemberText(m, key) + t
  {
    assert ([key] + rest)[1..] == rest;
    assert MemberTexts(m, [key] + rest) == [MemberText(m, key)] + MemberTexts(m, rest);
    assert ([MemberText(m, key)] + MemberTexts(m, rest))[1..] == MemberTexts(m, rest);
    hide Put, PutString;
  }

  /** An object is its members between braces, in ascending key order, with commas. */
  lemma ObjectText(m: map<string, Json>)
    ensures forall k | k in Sorted(m.Keys) :: k in m
    ensures Put(JObject(m), "") == "{" + Joined(MemberTexts(m, Sorted(m.Keys))) + "}"
  {
    SortedAscends(m.Keys);
    if m != map[] {
      MembersJoined(JObject(m), 0);
      assert Sorted(m.Keys)[0..] == Sorted(m.Keys);
      hide Joined, PutMembers, Sorted, MemberTexts;
    } else {
      assert Sorted(m.Keys) == [];
    }
  }

  /** Words and numbers: decimal digits without leading zeros, after a minus sign for negative ones. */
  lemma WordsAndNumbers(n: int)
    ensures Put(JNull, "") == "null" && Put(JBool(true), "") == "true" && Put(JBool(false), "") == "false"
    ensures 0 <= n < 10 ==> Put(JInt(n), "") == ["0123456789"[n]]
    ensures n >= 10 ==> Put(JInt(n), "") == Put(JInt(n / 10), "") + Put(JInt(n % 10), "")
    ensures n < 0 ==> Put(JInt(n), "") == "-" + Put(JInt(-n), "")
  {
    assert forall k: nat :: Decimal(k) + "" == Decimal(k);
  }

  /** A string is its characters, each as `Escaped` says, between quotes. */
  lemma StringText(s: string, c: char)
    ensures Put(JStr(""), "") == "\"\""
    ensures Put(JStr([c] + s), "") == "\"" + Escaped(c) + Put(JStr(s), "")[1..]
  {
    CharText(c, PutChars(s, ""));
    hide PutChar, Escaped;
    var r := [c] + s;
    assert r[0] == c && r[1..] == s;
    assert PutChars(r, "") == PutChar(c, PutChars(s, ""));
    assert (['\"'] + PutChars(s, ""))[1..] == PutChars(s, "");
    hide PutChars;
  }

  // ----- What the reader takes and rejects besides -----

  lemma StartsWith(word: string, t: string)
    ensures Starts(word + t, word) && (word + t)[|word|..] == t
  {
    assert (word + t)[..|word|] == word;
  }

  /** The three words for numbers that are not finite are read, and then have no normal form. */
  lemma ReadsNonFinite(nfc: Nfc, t: string)
    ensures Parse("NaN" + t) == Parse("Infinity" + t) == Parse("-Infinity" + t) == Some((Float(NonFinite), t))
    ensures Canon(nfc, Float(NonFinite)) == None
  {
    StartsWith("NaN", t);
    StartsWith("Infinity", t);
    StartsWith("-Infinity", t);
    OtherWords("NaN" + t);
    OtherWords("Infinity" + t);
    OtherWords("-Infinity" + t);
    StartsOtherwise("Infinity" + t, "NaN", 0);
    StartsOtherwise("-Infinity" + t, "NaN", 0);
    StartsOtherwise("-Infinity" + t, "Infinity", 0);
    hide Starts, Scan, ParseNumber, ParseItems, ParseMembers, Skip;
  }

  lemma OtherWords(s: string)
    requires s != [] && s[0] in "NI-"
    ensures !Starts(s, "null") && !Starts(s, "true") && !Starts(s, "false")
  {
    StartsOtherwise(s, "null", 0);
    StartsOtherwise(s, "true", 0);
    StartsOtherwise(s, "false", 0);
  }

  /** A control character inside a string, and a string or document that does not end, are rejected. */
  lemma RejectsControls(c: char, s: string)
    ensures c < ' ' ==> Scan([c] + s) == None
    ensures Scan("") == None && Document("") == None
  {}

  // ----- No object with a repeated key is ever read -----

  /** Whatever is read is a value whose objects have distinct keys, at every depth. */
  lemma {:induction false} ParsedIsProper(s: string)
    ensures Parse(s).Some? ==> Proper(Parse(s).value.0)
    decreases |s|, 0
  {
    if s != [] && s[0] == '{' {
      ParsedMembers(Skip(s[1..]));
    } else if s != [] && s[0] == '[' {
      ParsedItems(Skip(s[1..]));
    }
    hide ParseNumber, Scan, Starts, Skip, ParseItems, ParseMembers, OneKeyTwice;
  }

  lemma {:induction false} ParsedItems(s: string)
    ensures ParseItems(s).Some? ==> forall i | 0 <= i < |ParseItems(s).value.0| :: Proper(ParseItems(s).value.0[i])
    decreases |s|, 1
  {
    ParsedIsProper(s);
    if Parse(s).Some? {
      var u := Skip(Parse(s).value.1);
      if u != [] && u[0] == ',' {
        ParsedItems(Skip(u[1..]));
      }
    }
    hide Parse, Skip;
  }

  lemma {:induction false} ParsedMembers(s: string)
    ensures ParseMembers(s).Some? ==>
      forall i | 0 <= i < |ParseMembers(s).value.0| :: Proper(ParseMembers(s).value.0[i].value)
    decreases |s|, 1
  {
    if s != [] && s[0] == '\"' && Scan(s[1..]).Some? {
      var c := Skip(Scan(s[1..]).value.1);
      if c != [] && c[0] == ':' {
        ParsedIsProper(Skip(c[1..]));
        if Parse(Skip(c[1..])).Some? {
          var u := Skip(Parse(Skip(c[1..])).value.1);
          if u != [] && u[0] == ',' {
            ParsedMembers(Skip(u[1..]));
          }
        }
      }
    }
    hide Parse, Skip, Scan;
  }

  // ----- Identifiers -----

  /** `canonical_effect_id`: the identifier itself when it is its own NFC form and printable ASCII. */
  function EffectId(nfc: Nfc, s: string): Option<string> {
    if s == "" || nfc(s) != s || !Kernel.CanonicalEffectId(nfc(s)) then None else Some(nfc(s))
  }

  /** `canonical_outcome_key`: the NFC form, when that is lowercase hexadecimal. */
  function OutcomeKey(nfc: Nfc, s: string): Option<string> {
    if s == "" || !Kernel.CanonicalOutcomeKey(nfc(s)) then None else Some(nfc(s))
  }

  predicate Ascii(s: string) {
    forall c | c in s :: c < '\U{80}'
  }

  /** NFC leaves ASCII text alone and maps nothing else to lowercase hexadecimal text. */
  ghost predicate FixesAscii(nfc: Nfc) {
    && (forall s | Ascii(s) :: nfc(s) == s)
    && (forall s | Kernel.CanonicalOutcomeKey(nfc(s)) :: nfc(s) == s)
  }

  /** Given that, both checks accept exactly the identifiers the protocol calls canonical, unchanged. */
  lemma IdentifiersExactly(nfc: Nfc, s: string)
    requires FixesAscii(nfc)
    ensures EffectId(nfc, s) == if Kernel.CanonicalEffectId(s) then Some(s) else None
    ensures OutcomeKey(nfc, s) == if Kernel.CanonicalOutcomeKey(s) then Some(s) else None
    ensures Kernel.CanonicalEffectId(s) <==> Kernel.Printable(s)
    ensures Kernel.CanonicalOutcomeKey(s) <==> Kernel.LowerHex(s)
  {
    Kernel.SyntaxExactly(s);
    hide Kernel.Printable, Kernel.LowerHex;
    if Kernel.CanonicalEffectId(s) || Kernel.CanonicalOutcomeKey(s) {
      assert Ascii(s);
    }
  }
}

/** Canonical JSON: the printer whose text is what state and command hashes are taken of. */
module CanonicalJson {
  import opened Common

  /** One UTF-16 code unit, as in the strings of the source. */
  type Unit = n: int | 0 <= n < 0x1_0000

  type Text = seq<Unit>

  /** Whole numbers that the source represents exactly. */
  type SafeInt = n: int | -0x1F_FFFF_FFFF_FFFF <= n <= 0x1F_FFFF_FFFF_FFFF

  /** A value as the printer meets it. Objects list their own keys in insertion order; `NotJson` stands for
      the values that are refused: undefined, functions, symbols, bigints and non-finite numbers. */
  datatype Json =
    | Null
    | Bool(b: bool)
    | Number(n: SafeInt)
    | String(s: Text)
    | Array(items: seq<Json>)
    | Object(members: seq<Member>)
    | NotJson

  datatype Member = Member(key: Text, value: Json)

  // ----- Order of keys -----

  /** Code-unit order, as `sort()` uses it. */
  predicate Less(a: Text, b: Text) {
    if b == [] then false
    else if a == [] then true
    else a[0] < b[0] || (a[0] == b[0] && Less(a[1..], b[1..]))
  }

  lemma {:induction false} LessTotal(a: Text, b: Text)
    ensures a == b || Less(a, b) || Less(b, a)
    ensures !(Less(a, b) && Less(b, a)) && !Less(a, a)
  {
    if a != [] && b != [] {
      LessTotal(a[1..], b[1..]);
      assert a == [a[0]] + a[1..] && b == [b[0]] + b[1..];
    }
    if a != [] {
      LessTotal(a[1..], a[1..]);
    }
  }

  lemma {:induction false} LessTransitive(a: Text, b: Text, c: Text)
    requires Less(a, b) && Less(b, c)
    ensures Less(a, c)
  {
    if a != [] && b != [] && c != [] && a[0] == b[0] && b[0] == c[0] {
      LessTransitive(a[1..], b[1..], c[1..]);
    }
  }

  predicate SortedByKey(ms: seq<Member>) {
    forall i, j :: 0 <= i < j < |ms| ==> Less(ms[i].key, ms[j].key)
  }

  predicate DistinctKeys(ms: seq<Member>) {
    forall i, j :: 0 <= i < j < |ms| ==> ms[i].key != ms[j].key
  }

  function Insert(m: Member, ms: seq<Member>): (r: seq<Member>)
    ensures multiset(r) == multiset(ms) + multiset{m}
  {
    if ms == [] then [m]
    else if Less(m.key, ms[0].key) then
      assert [m] + ms == [m] + ms;
      [m] + ms
    else
      assert ms == [ms[0]] + ms[1..];
      [ms[0]] + Insert(m, ms[1..])
  }

  /** The members in the order of their sorted keys. */
  function Sorted(ms: seq<Member>): (r: seq<Member>)
    ensures multiset(r) == multiset(ms)
  {
    if ms == [] then []
    else
      assert ms == [ms[0]] + ms[1..];
      Insert(ms[0], Sorted(ms[1..]))
  }

  lemma SameMembers(ms: seq<Member>)
    ensures |Sorted(ms)| == |ms|
    ensures forall m :: m in ms <==> m in Sorted(ms)
    ensures forall i :: 0 <= i < |ms| ==> Sorted(ms)[i] in ms
  {
    assert |multiset(ms)| == |multiset(Sorted(ms))|;
    forall m ensures m in ms <==> m in Sorted(ms) {
      assert m in multiset(ms) <==> m in multiset(Sorted(ms));
    }
  }

  lemma {:induction false} InsertSorts(m: Member, ms: seq<Member>)
    requires SortedByKey(ms) && forall x :: x in ms ==> x.key != m.key
    ensures SortedByKey(Insert(m, ms))
  {
    if ms != [] {
      LessTotal(m.key, ms[0].key);
      if Less(m.key, ms[0].key) {
        forall i | 0 < i < |ms| ensures Less(m.key, ms[i].key) {
          LessTransitive(m.key, ms[0].key, ms[i].key);
        }
      } else {
        assert ms[0] in ms;
        TailSorted(ms);
        InsertSorts(m, ms[1..]);
        PrependSorted(ms[0], Insert(m, ms[1..]), m, ms[1..]);
      }
    }
  }

  lemma TailSorted(ms: seq<Member>)
    requires ms != [] && SortedByKey(ms)
    ensures SortedByKey(ms[1..])
    ensures forall x :: x in ms[1..] ==> x in ms && Less(ms[0].key, x.key)
  {}

  lemma PrependSorted(head: Member, tail: seq<Member>, m: Member, rest: seq<Member>)
    requires SortedByKey(tail) && multiset(tail) == multiset(rest) + multiset{m}
    requires Less(head.key, m.key) && forall x :: x in rest ==> Less(head.key, x.key)
    ensures SortedByKey([head] + tail)
  {
    hide Less;
    forall x | x in tail ensures Less(head.key, x.key) {
      assert x in multiset(tail);
    }
  }

  lemma {:induction false} SortedSorts(ms: seq<Member>)
    requires DistinctKeys(ms)
    ensures SortedByKey(Sorted(ms))
  {
    if ms != [] {
      SortedSorts(ms[1..]);
      SameMembers(ms[1..]);
      forall x | x in Sorted(ms[1..]) ensures x.key != ms[0].key {
        var k :| 0 <= k < |ms[1..]| && ms[1..][k] == x;
        assert ms[k + 1] == x;
      }
      InsertSorts(ms[0], Sorted(ms[1..]));
    }
  }

  // ----- Strings and numbers, as `JSON.stringify` prints them -----

  const QUOTE: Unit := 0x22
  const BACKSLASH: Unit := 0x5C
  const COMMA: Unit := 0x2C
  const COLON: Unit := 0x3A
  const MINUS: Unit := 0x2D
  const OPEN_BRACKET: Unit := 0x5B
  const CLOSE_BRACKET: Unit := 0x5D
  const OPEN_BRACE: Unit := 0x7B
  const CLOSE_BRACE: Unit := 0x7D

  predicate Lead(c: Unit) { 0xD800 <= c < 0xDC00 }

  predicate Trail(c: Unit) { 0xDC00 <= c < 0xE000 }

  predicate SurrogatePair(s: Text) { |s| >= 2 && Lead(s[0]) && Trail(s[1]) }

  function HexDigit(d: int): Unit
    requires 0 <= d < 16
  {
    if d < 10 then 0x30 + d else 0x61 + (d - 10)
  }

  function UnicodeEscape(c: Unit): Text {
    [BACKSLASH, 0x75, HexDigit(c / 16 / 16 / 16), HexDigit(c / 16 / 16 % 16), HexDigit(c / 16 % 16), HexDigit(c % 16)]
  }

  function EscapeUnit(c: Unit): Text {
    if c == 0x08 then [BACKSLASH, 0x62]
    else if c == 0x09 then [BACKSLASH, 0x74]
    else if c == 0x0A then [BACKSLASH, 0x6E]
    else if c == 0x0C then [BACKSLASH, 0x66]
    else if c == 0x0D then [BACKSLASH, 0x72]
    else if c == QUOTE then [BACKSLASH, QUOTE]
    else if c == BACKSLASH then [BACKSLASH, BACKSLASH]
    else if c < 0x20 || Lead(c) || Trail(c) then UnicodeEscape(c)
    else [c]
  }

  /** The rest of a quoted string, closing quote included; a surrogate pair is left as it is. */
  function QuoteRest(s: Text): Text {
    if s == [] then [QUOTE]
    else if SurrogatePair(s) then [s[0], s[1]] + QuoteRest(s[2..])
    else EscapeUnit(s[0]) + QuoteRest(s[1..])
  }

  function Quote(s: Text): Text {
    [QUOTE] + QuoteRest(s)
  }

  function Digits(n: nat): Text {
    if n < 10 then [0x30 + n] else Digits(n / 10) + [0x30 + n % 10]
  }

  function Decimal(n: int): Text {
    if n < 0 then [MINUS] + Digits(-n) else Digits(n)
  }

  // ----- The printer -----

  /** Some part of the value is one that the printer refuses. */
  predicate HoldsNotJson(v: Json) {
    match v
    case Array(items) => exists item :: item in items && HoldsNotJson(item)
    case Object(members) => exists m :: m in members && HoldsNotJson(m.value)
    case NotJson => true
    case _ => false
  }

  /** Objects have each key once; a property every value of the source has. */
  predicate WellFormed(v: Json) {
    match v
    case Array(items) => forall item :: item in items ==> WellFormed(item)
    case Object(members) => DistinctKeys(members) && forall m :: m in members ==> WellFormed(m.value)
    case _ => true
  }

  function Canonical(v: Json): Outcome<Text>
    decreases v, 1, 0
  {
    match v
    case Null => Done([0x6E, 0x75, 0x6C, 0x6C])
    case Bool(b) => Done(if b then [0x74, 0x72, 0x75, 0x65] else [0x66, 0x61, 0x6C, 0x73, 0x65])
    case Number(n) => Done(Decimal(n))
    case String(s) => Done(Quote(s))
    case Array(items) =>
      var inner := CanonicalItems(v, items);
      if inner.Refused? then Refused else Done([OPEN_BRACKET] + inner.value + [CLOSE_BRACKET])
    case Object(members) =>
      SameMembers(members);
      var inner := CanonicalMembers(v, Sorted(members));
      if inner.Refused? then Refused else Done([OPEN_BRACE] + inner.value + [CLOSE_BRACE])
    case NotJson => Refused
  }

  /** The items joined by commas. */
  function CanonicalItems(context: Json, items: seq<Json>): Outcome<Text>
    requires forall i :: 0 <= i < |items| ==> items[i] < context
    decreases context, 0, |items|
  {
    if items == [] then Done([])
    else
      var first := Canonical(items[0]);
      var rest := CanonicalItems(context, items[1..]);
      if first.Refused? || rest.Refused? then Refused
      else if |items| == 1 then first
      else Done(first.value + [COMMA] + rest.value)
  }

  /** The members joined by commas. */
  function CanonicalMembers(context: Json, members: seq<Member>): Outcome<Text>
    requires forall i :: 0 <= i < |members| ==> members[i].value < context
    decreases context, 0, |members|
  {
    if members == [] then Done([])
    else
      var first := Canonical(members[0].value);
      var rest := CanonicalMembers(context, members[1..]);
      if first.Refused? || rest.Refused? then Refused
      else
        var entry := Quote(members[0].key) + [COLON] + first.value;
        if |members| == 1 then Done(entry) else Done(entry + [COMMA] + rest.value)
  }

  // ----- When printing is refused -----

  /** Printing fails exactly when something inside has no JSON form. */
  lemma {:induction false} RefusedExactly(v: Json)
    ensures Canonical(v).Refused? <==> HoldsNotJson(v)
    decreases v, 1, 0
  {
    hide CanonicalItems, Sorted;
    match v
    case Array(items) =>
      ItemsRefused(v, items);
    case Object(members) =>
      SameMembers(members);
      MembersRefused(v, Sorted(members));
      forall m ensures m in members <==> m in Sorted(members) {}
    case _ =>
  }

  lemma {:induction false} ItemsRefused(context: Json, items: seq<Json>)
    requires forall i :: 0 <= i < |items| ==> items[i] < context
    ensures CanonicalItems(context, items).Refused? <==> exists item :: item in items && HoldsNotJson(item)
    decreases context, 0, |items|
  {
    if items != [] {
      assert items == [items[0]] + items[1..];
      RefusedExactly(items[0]);
      ItemsRefused(context, items[1..]);
    }
  }

  lemma {:induction false} MembersRefused(context: Json, members: seq<Member>)
    requires forall i :: 0 <= i < |members| ==> members[i].value < context
    ensures CanonicalMembers(context, members).Refused? <==> exists m :: m in members && HoldsNotJson(m.value)
    decreases context, 0, |members|
  {
    if members != [] {
      assert members == [members[0]] + members[1..];
      RefusedExactly(members[0].value);
      MembersRefused(context, members[1..]);
    }
  }

  // ----- Strings are read back in one way only -----

  lemma CancelPrefix<T>(p: seq<T>, x: seq<T>, y: seq<T>)
    requires p + x == p + y
    ensures x == y
  {
    assert x == (p + x)[|p|..] && y == (p + y)[|p|..];
  }

  lemma UnicodeEscapeTells(c: Unit, d: Unit)
    requires UnicodeEscape(c) == UnicodeEscape(d)
    ensures c == d
  {
    var s, t := UnicodeEscape(c), UnicodeEscape(d);
    assert s[2] == t[2] && s[3] == t[3] && s[4] == t[4] && s[5] == t[5];
    assert c / 16 / 16 == d / 16 / 16;
    assert c / 16 == d / 16;
  }

  lemma EscapeUnitTells(c: Unit, d: Unit, x: Text, y: Text)
    requires EscapeUnit(c) + x == EscapeUnit(d) + y
    ensures c == d && x == y
  {
    var s, t := EscapeUnit(c) + x, EscapeUnit(d) + y;
    assert s[0] == EscapeUnit(c)[0] && t[0] == EscapeUnit(d)[0];
    if s[0] == BACKSLASH {
      assert s[1] == EscapeUnit(c)[1] && t[1] == EscapeUnit(d)[1];
      if s[1] == 0x75 {
        assert EscapeUnit(c) == s[..6] && EscapeUnit(d) == t[..6];
        UnicodeEscapeTells(c, d);
      }
    }
    assert c == d;
    CancelPrefix(EscapeUnit(c), x, y);
  }

  lemma EscapeUnitHead(c: Unit)
    ensures |EscapeUnit(c)| > 0 && EscapeUnit(c)[0] != QUOTE && !Lead(EscapeUnit(c)[0])
  {}

  lemma QuoteRestHead(s: Text)
    ensures |QuoteRest(s)| > 0
    ensures QuoteRest(s)[0] == QUOTE <==> s == []
    ensures Lead(QuoteRest(s)[0]) <==> SurrogatePair(s)
  {
    if s != [] {
      EscapeUnitHead(s[0]);
    }
  }

  lemma {:induction false} QuoteRestTells(s: Text, t: Text, x: Text, y: Text)
    requires QuoteRest(s) + x == QuoteRest(t) + y
    ensures s == t && x == y
    decreases |s|
  {
    hide EscapeUnit;
    QuoteRestHead(s);
    QuoteRestHead(t);
    var u := QuoteRest(s) + x;
    assert u[0] == QuoteRest(s)[0] && u[0] == QuoteRest(t)[0];
    if s == [] {
      CancelPrefix([QUOTE], x, y);
    } else if SurrogatePair(s) {
      assert u[1] == QuoteRest(s)[1] && u[1] == QuoteRest(t)[1];
      assert u == [s[0], s[1]] + (QuoteRest(s[2..]) + x) && u == [s[0], s[1]] + (QuoteRest(t[2..]) + y);
      CancelPrefix([s[0], s[1]], QuoteRest(s[2..]) + x, QuoteRest(t[2..]) + y);
      QuoteRestTells(s[2..], t[2..], x, y);
      assert s == [s[0], s[1]] + s[2..] && t == [t[0], t[1]] + t[2..];
    } else {
      assert u == EscapeUnit(s[0]) + (QuoteRest(s[1..]) + x) && u == EscapeUnit(t[0]) + (QuoteRest(t[1..]) + y);
      EscapeUnitTells(s[0], t[0], QuoteRest(s[1..]) + x, QuoteRest(t[1..]) + y);
      QuoteRestTells(s[1..], t[1..], x, y);
      assert s == [s[0]] + s[1..] && t == [t[0]] + t[1..];
    }
  }

  lemma QuoteTells(s: Text, t: Text, x: Text, y: Text)
    requires Quote(s) + x == Quote(t) + y
    ensures s == t && x == y
  {
    hide QuoteRest;
    assert Quote(s) + x == [QUOTE] + (QuoteRest(s) + x) && Quote(t) + y == [QUOTE] + (QuoteRest(t) + y);
    CancelPrefix([QUOTE], QuoteRest(s) + x, QuoteRest(t) + y);
    QuoteRestTells(s, t, x, y);
  }

  // ----- Numbers are read back in one way only -----

  predicate IsDigit(c: Unit) { 0x30 <= c < 0x3A }

  /** What may follow a value inside a text: nothing, a comma or a closing bracket. */
  predicate Delimited(x: Text) {
    x == [] || x[0] == COMMA || x[0] == CLOSE_BRACKET || x[0] == CLOSE_BRACE
  }

  function DigitsValue(t: Text): int {
    if t == [] then 0
    else
      var last: int := t[|t| - 1];
      DigitsValue(t[..|t| - 1]) * 10 + (last - 0x30)
  }

  lemma {:induction false} DigitsRead(n: nat)
    ensures |Digits(n)| > 0 && DigitsValue(Digits(n)) == n
    ensures forall k :: 0 <= k < |Digits(n)| ==> IsDigit(Digits(n)[k])
  {
    if n < 10 {
      assert [0x30 + n][..0] == [];
    } else {
      DigitsRead(n / 10);
      var t := Digits(n);
      assert t[..|t| - 1] == Digits(n / 10);
    }
  }

  /** How many digits a text begins with. */
  function DigitRun(t: Text): nat {
    if t == [] || !IsDigit(t[0]) then 0 else 1 + DigitRun(t[1..])
  }

  lemma {:induction false} DigitRunStops(s: Text, x: Text)
    requires Delimited(x) && forall k :: 0 <= k < |s| ==> IsDigit(s[k])
    ensures DigitRun(s + x) == |s|
  {
    if s == [] {
      assert s + x == x;
    } else {
      assert (s + x)[0] == s[0] && (s + x)[1..] == s[1..] + x;
      DigitRunStops(s[1..], x);
    }
  }

  lemma DigitsTell(m: nat, n: nat, x: Text, y: Text)
    requires Digits(m) + x == Digits(n) + y
    requires Delimited(x) && Delimited(y)
    ensures m == n && x == y
  {
    hide Digits, DigitsValue, IsDigit, Delimited, DigitRun;
    DigitsRead(m);
    DigitsRead(n);
    var s, t := Digits(m), Digits(n);
    DigitRunStops(s, x);
    DigitRunStops(t, y);
    assert s == (s + x)[..|s|] && t == (t + y)[..|s|];
    CancelPrefix(s, x, y);
  }

  lemma DecimalHead(n: int)
    ensures |Decimal(n)| > 0
    ensures if n < 0 then Decimal(n)[0] == MINUS else IsDigit(Decimal(n)[0])
  {
    if n >= 0 {
      DigitsRead(n);
    }
  }

  lemma DecimalTells(m: int, n: int, x: Text, y: Text)
    requires Decimal(m) + x == Decimal(n) + y
    requires Delimited(x) && Delimited(y)
    ensures m == n && x == y
  {
    hide Digits, Delimited;
    SameSign(m, n, x, y);
    if m < 0 {
      MinusFirst(-m, x);
      MinusFirst(-n, y);
      CancelPrefix([MINUS], Digits(-m) + x, Digits(-n) + y);
      DigitsTell(-m, -n, x, y);
    } else {
      DigitsTell(m, n, x, y);
    }
  }

  /** The first unit tells the sign. */
  lemma SameSign(m: int, n: int, x: Text, y: Text)
    requires Decimal(m) + x == Decimal(n) + y
    ensures m < 0 <==> n < 0
  {
    hide Decimal;
    DecimalHead(m);
    DecimalHead(n);
    var u := Decimal(m) + x;
    assert u[0] == Decimal(m)[0] && u[0] == Decimal(n)[0];
  }

  lemma MinusFirst(k: nat, x: Text)
    ensures [MINUS] + Digits(k) + x == [MINUS] + (Digits(k) + x)
  {
    hide Digits;
  }

  // ----- Equality up to the order of keys -----

  /** The two values are equal when the order in which objects list their keys is ignored. */
  ghost predicate SameValue(a: Json, b: Json) {
    match a
    case Array(xs) =>
      b.Array? && |xs| == |b.items| && forall i :: 0 <= i < |xs| ==> SameValue(xs[i], b.items[i])
    case Object(ms) =>
      b.Object? && |ms| == |b.members| && forall m :: m in ms ==> SameMember(m, b.members)
    case _ => a == b
  }

  /** One of the members listed has the key and the value of `m`. */
  ghost predicate SameMember(m: Member, ns: seq<Member>) {
    exists n :: n in ns && m.key == n.key && SameValue(m.value, n.value)
  }

  /** Member lists that agree position by position. */
  ghost predicate SameInOrder(ms: seq<Member>, ns: seq<Member>) {
    |ms| == |ns| && forall i :: 0 <= i < |ms| ==> ms[i].key == ns[i].key && SameValue(ms[i].value, ns[i].value)
  }

  lemma SortedAgreeIsSame(ms: seq<Member>, ns: seq<Member>)
    requires SameInOrder(Sorted(ms), Sorted(ns))
    ensures SameValue(Object(ms), Object(ns))
  {
    hide Sorted;
    SameMembers(ms);
    SameMembers(ns);
    var ss, ts := Sorted(ms), Sorted(ns);
    forall m | m in ms ensures SameMember(m, ns) {
      assert m in ss;
      var k :| 0 <= k < |ss| && ss[k] == m;
      assert ts[k] in ns;
    }
  }

  // ----- Equal texts come from equal values -----

  /** The first unit of a text tells which kind of value it prints. */
  predicate Announces(v: Json, c: Unit) {
    match v
    case Null => c == 0x6E
    case Bool(b) => c == if b then 0x74 else 0x66
    case Number(_) => c == MINUS || IsDigit(c)
    case String(_) => c == QUOTE
    case Array(_) => c == OPEN_BRACKET
    case Object(_) => c == OPEN_BRACE
    case NotJson => false
  }

  lemma HeadUnit(v: Json)
    requires Canonical(v).Done?
    ensures |Canonical(v).value| > 0 && Announces(v, Canonical(v).value[0])
  {
    if v.Number? {
      DecimalHead(v.n);
    }
  }

  lemma {:induction false} ValueTells(a: Json, b: Json, x: Text, y: Text)
    requires WellFormed(a) && WellFormed(b)
    requires Canonical(a).Done? && Canonical(b).Done?
    requires Canonical(a).value + x == Canonical(b).value + y
    requires Delimited(x) && Delimited(y)
    ensures SameValue(a, b) && x == y
    decreases a, 1, 0
  {
    HeadUnit(a);
    HeadUnit(b);
    var s, t := Canonical(a).value, Canonical(b).value;
    assert (s + x)[0] == s[0] && (t + y)[0] == t[0];
    match a
    case Null => CancelPrefix(s, x, y);
    case Bool(_) => CancelPrefix(s, x, y);
    case Number(m) => DecimalTells(m, b.n, x, y);
    case String(_) => QuoteTells(a.s, b.s, x, y);
    case Array(_) => ArrayTells(a, b, x, y);
    case Object(_) => ObjectTells(a, b, x, y);
  }

  lemma {:induction false} ArrayTells(a: Json, b: Json, x: Text, y: Text)
    requires a.Array? && b.Array? && WellFormed(a) && WellFormed(b)
    requires Canonical(a).Done? && Canonical(b).Done?
    requires Canonical(a).value + x == Canonical(b).value + y
    ensures SameValue(a, b) && x == y
    decreases a, 0, |a.items| + 1
  {
    hide CanonicalItems;
    var s, t := CanonicalItems(a, a.items).value, CanonicalItems(b, b.items).value;
    assert Canonical(a).value + x == [OPEN_BRACKET] + (s + ([CLOSE_BRACKET] + x));
    assert Canonical(b).value + y == [OPEN_BRACKET] + (t + ([CLOSE_BRACKET] + y));
    CancelPrefix([OPEN_BRACKET], s + ([CLOSE_BRACKET] + x), t + ([CLOSE_BRACKET] + y));
    ItemsTell(a, a.items, b, b.items, x, y);
  }

  lemma {:induction false} ObjectTells(a: Json, b: Json, x: Text, y: Text)
    requires a.Object? && b.Object? && WellFormed(a) && WellFormed(b)
    requires Canonical(a).Done? && Canonical(b).Done?
    requires Canonical(a).value + x == Canonical(b).value + y
    ensures SameValue(a, b) && x == y
    decreases a, 0, |a.members| + 1
  {
    hide Sorted, CanonicalMembers, SameInOrder, SameValue;
    SameMembers(a.members);
    SameMembers(b.members);
    var ms, ns := Sorted(a.members), Sorted(b.members);
    var s, t := CanonicalMembers(a, ms).value, CanonicalMembers(b, ns).value;
    assert Canonical(a).value + x == [OPEN_BRACE] + (s + ([CLOSE_BRACE] + x));
    assert Canonical(b).value + y == [OPEN_BRACE] + (t + ([CLOSE_BRACE] + y));
    CancelPrefix([OPEN_BRACE], s + ([CLOSE_BRACE] + x), t + ([CLOSE_BRACE] + y));
    MembersTell(a, ms, b, ns, x, y);
    SortedAgreeIsSame(a.members, b.members);
  }

  /** A list of items as printed: the text of the first, then what follows it. */
  lemma ItemsSplit(context: Json, items: seq<Json>, x: Text) returns (rest: Text)
    requires forall i :: 0 <= i < |items| ==> items[i] < context
    requires items != [] && CanonicalItems(context, items).Done?
    ensures Canonical(items[0]).Done?
    ensures CanonicalItems(context, items).value + ([CLOSE_BRACKET] + x) == Canonical(items[0]).value + rest
    ensures |items| == 1 ==> rest == [CLOSE_BRACKET] + x
    ensures |items| > 1 ==> CanonicalItems(context, items[1..]).Done?
    ensures |items| > 1 ==> rest == [COMMA] + (CanonicalItems(context, items[1..]).value + ([CLOSE_BRACKET] + x))
  {
    hide Canonical;
    if |items| == 1 {
      rest := [CLOSE_BRACKET] + x;
    } else {
      var later := CanonicalItems(context, items[1..]).value;
      rest := [COMMA] + (later + ([CLOSE_BRACKET] + x));
      assert (Canonical(items[0]).value + [COMMA] + later) + ([CLOSE_BRACKET] + x) == Canonical(items[0]).value + rest;
    }
  }

  lemma {:induction false} ItemsTell(ca: Json, xs: seq<Json>, cb: Json, ys: seq<Json>, x: Text, y: Text)
    requires forall i :: 0 <= i < |xs| ==> xs[i] < ca && WellFormed(xs[i])
    requires forall i :: 0 <= i < |ys| ==> ys[i] < cb && WellFormed(ys[i])
    requires CanonicalItems(ca, xs).Done? && CanonicalItems(cb, ys).Done?
    requires CanonicalItems(ca, xs).value + ([CLOSE_BRACKET] + x) == CanonicalItems(cb, ys).value
             + ([CLOSE_BRACKET] + y)
    ensures |xs| == |ys| && x == y
    ensures forall i :: 0 <= i < |xs| ==> SameValue(xs[i], ys[i])
    decreases ca, 0, |xs|
  {
    hide Canonical, SameValue, WellFormed, CanonicalItems, Delimited;
    if xs == [] || ys == [] {
      EmptyItemsTell(ca, xs, cb, ys, x, y);
    } else {
      var restX := ItemsSplit(ca, xs, x);
      var restY := ItemsSplit(cb, ys, y);
      assert xs[0] in xs && ys[0] in ys;
      ValueTells(xs[0], ys[0], restX, restY);
      assert |xs| > 1 <==> restX[0] == COMMA;
      assert |ys| > 1 <==> restY[0] == COMMA;
      if |xs| == 1 {
        CancelPrefix([CLOSE_BRACKET], x, y);
      } else {
        var s, t := CanonicalItems(ca, xs[1..]).value, CanonicalItems(cb, ys[1..]).value;
        CancelPrefix([COMMA], s + ([CLOSE_BRACKET] + x), t + ([CLOSE_BRACKET] + y));
        ItemsTell(ca, xs[1..], cb, ys[1..], x, y);
        forall i | 0 <= i < |xs| ensures SameValue(xs[i], ys[i]) {
          if i > 0 {
            assert xs[i] == xs[1..][i - 1] && ys[i] == ys[1..][i - 1];
          }
        }
      }
    }
  }

  lemma EmptyItemsTell(ca: Json, xs: seq<Json>, cb: Json, ys: seq<Json>, x: Text, y: Text)
    requires forall i :: 0 <= i < |xs| ==> xs[i] < ca
    requires forall i :: 0 <= i < |ys| ==> ys[i] < cb
    requires CanonicalItems(ca, xs).Done? && CanonicalItems(cb, ys).Done?
    requires CanonicalItems(ca, xs).value + ([CLOSE_BRACKET] + x) == CanonicalItems(cb, ys).value
             + ([CLOSE_BRACKET] + y)
    requires xs == [] || ys == []
    ensures xs == [] && ys == [] && x == y
  {
    ItemsHead(ca, xs, x);
    ItemsHead(cb, ys, y);
    CancelPrefix([CLOSE_BRACKET], x, y);
  }

  lemma ItemsHead(context: Json, items: seq<Json>, x: Text)
    requires forall i :: 0 <= i < |items| ==> items[i] < context
    requires CanonicalItems(context, items).Done?
    ensures var u := CanonicalItems(context, items).value + ([CLOSE_BRACKET] + x);
            && (u[0] == CLOSE_BRACKET <==> items == [])
            && (items == [] ==> u == [CLOSE_BRACKET] + x)
  {
    if items != [] {
      HeadUnit(items[0]);
      var rest := ItemsSplit(context, items, x);
    } else {
      assert CanonicalItems(context, items).value == [];
    }
  }

  /** A list of members as printed: the first key, its value, then what follows. */
  lemma MembersSplit(context: Json, ms: seq<Member>, x: Text) returns (rest: Text)
    requires forall i :: 0 <= i < |ms| ==> ms[i].value < context
    requires ms != [] && CanonicalMembers(context, ms).Done?
    ensures Canonical(ms[0].value).Done?
    ensures CanonicalMembers(context, ms).value + ([CLOSE_BRACE] + x) == Quote(ms[0].key)
            + ([COLON] + (Canonical(ms[0].value).value + rest))
    ensures |ms| == 1 ==> rest == [CLOSE_BRACE] + x
    ensures |ms| > 1 ==> CanonicalMembers(context, ms[1..]).Done?
    ensures |ms| > 1 ==> rest == [COMMA] + (CanonicalMembers(context, ms[1..]).value + ([CLOSE_BRACE] + x))
  {
    hide Canonical, Quote;
    var k, v := Quote(ms[0].key), Canonical(ms[0].value).value;
    if |ms| == 1 {
      rest := [CLOSE_BRACE] + x;
      assert (k + [COLON] + v) + rest == k + ([COLON] + (v + rest));
    } else {
      var later := CanonicalMembers(context, ms[1..]).value;
      rest := [COMMA] + (later + ([CLOSE_BRACE] + x));
      assert ((k + [COLON] + v) + [COMMA] + later) + ([CLOSE_BRACE] + x) == k + ([COLON] + (v + rest));
    }
  }

  lemma {:induction false} MembersTell(ca: Json, ms: seq<Member>, cb: Json, ns: seq<Member>, x: Text, y: Text)
    requires forall i :: 0 <= i < |ms| ==> ms[i].value < ca && WellFormed(ms[i].value)
    requires forall i :: 0 <= i < |ns| ==> ns[i].value < cb && WellFormed(ns[i].value)
    requires CanonicalMembers(ca, ms).Done? && CanonicalMembers(cb, ns).Done?
    requires CanonicalMembers(ca, ms).value + ([CLOSE_BRACE] + x) == CanonicalMembers(cb, ns).value
             + ([CLOSE_BRACE] + y)
    ensures SameInOrder(ms, ns) && x == y
    decreases ca, 0, |ms|
  {
    hide Canonical, SameValue, WellFormed, Quote, CanonicalMembers, Delimited;
    if ms == [] || ns == [] {
      EmptyMembersTell(ca, ms, cb, ns, x, y);
    } else {
      var restX := MembersSplit(ca, ms, x);
      var restY := MembersSplit(cb, ns, y);
      var u, v := Canonical(ms[0].value).value + restX, Canonical(ns[0].value).value + restY;
      QuoteTells(ms[0].key, ns[0].key, [COLON] + u, [COLON] + v);
      CancelPrefix([COLON], u, v);
      assert ms[0] in ms && ns[0] in ns;
      ValueTells(ms[0].value, ns[0].value, restX, restY);
      assert |ms| > 1 <==> restX[0] == COMMA;
      assert |ns| > 1 <==> restY[0] == COMMA;
      if |ms| == 1 {
        CancelPrefix([CLOSE_BRACE], x, y);
      } else {
        var s, t := CanonicalMembers(ca, ms[1..]).value, CanonicalMembers(cb, ns[1..]).value;
        CancelPrefix([COMMA], s + ([CLOSE_BRACE] + x), t + ([CLOSE_BRACE] + y));
        MembersTell(ca, ms[1..], cb, ns[1..], x, y);
        PrependInOrder(ms, ns);
      }
    }
  }

  lemma PrependInOrder(ms: seq<Member>, ns: seq<Member>)
    requires ms != [] && ns != []
    requires ms[0].key == ns[0].key && SameValue(ms[0].value, ns[0].value)
    requires SameInOrder(ms[1..], ns[1..])
    ensures SameInOrder(ms, ns)
  {
    hide SameValue;
    forall i | 0 <= i < |ms| ensures ms[i].key == ns[i].key && SameValue(ms[i].value, ns[i].value) {
      if i > 0 {
        assert ms[i] == ms[1..][i - 1] && ns[i] == ns[1..][i - 1];
      }
    }
  }

  lemma EmptyMembersTell(ca: Json, ms: seq<Member>, cb: Json, ns: seq<Member>, x: Text, y: Text)
    requires forall i :: 0 <= i < |ms| ==> ms[i].value < ca
    requires forall i :: 0 <= i < |ns| ==> ns[i].value < cb
    requires CanonicalMembers(ca, ms).Done? && CanonicalMembers(cb, ns).Done?
    requires CanonicalMembers(ca, ms).value + ([CLOSE_BRACE] + x) == CanonicalMembers(cb, ns).value
             + ([CLOSE_BRACE] + y)
    requires ms == [] || ns == []
    ensures ms == [] && ns == [] && x == y
  {
    hide CanonicalMembers;
    MembersHead(ca, ms, x);
    MembersHead(cb, ns, y);
    CancelPrefix([CLOSE_BRACE], x, y);
  }

  lemma MembersHead(context: Json, ms: seq<Member>, x: Text)
    requires forall i :: 0 <= i < |ms| ==> ms[i].value < context
    requires CanonicalMembers(context, ms).Done?
    ensures var u := CanonicalMembers(context, ms).value + ([CLOSE_BRACE] + x);
            && (u[0] == CLOSE_BRACE <==> ms == [])
            && (ms == [] ==> u == [CLOSE_BRACE] + x)
  {
    hide Canonical;
    if ms != [] {
      var rest := MembersSplit(context, ms, x);
      assert Quote(ms[0].key)[0] == QUOTE;
    } else {
      assert CanonicalMembers(context, ms).value == [];
    }
  }

  // ----- Equal values give equal texts -----

  /** Some member among the first `n` has the key. */
  ghost predicate KeyAmong(key: Text, ns: seq<Member>, n: nat) {
    exists j :: 0 <= j < n && j < |ns| && ns[j].key == key
  }

  /** Strictly sorted keys that all occur in a strictly sorted list of the same length are that list. */
  lemma {:induction false} SortedKeysAgree(ms: seq<Member>, k: nat, ns: seq<Member>, n: nat)
    requires SortedByKey(ms) && SortedByKey(ns) && k <= |ms| && n <= |ns|
    requires forall i :: 0 <= i < k ==> KeyAmong(ms[i].key, ns, n)
    ensures k <= n
    ensures k == n ==> forall i :: 0 <= i < k ==> ms[i].key == ns[i].key
    decreases n
  {
    hide Less;
    if k > 0 {
      assert KeyAmong(ms[k - 1].key, ns, n);
      var j :| 0 <= j < n && ns[j].key == ms[k - 1].key;
      forall i | 0 <= i < k - 1 ensures KeyAmong(ms[i].key, ns, j) {
        assert KeyAmong(ms[i].key, ns, n);
        var m :| 0 <= m < n && ns[m].key == ms[i].key;
        assert Less(ms[i].key, ms[k - 1].key);
        LessTotal(ns[m].key, ns[j].key);
      }
      SortedKeysAgree(ms, k - 1, ns, j);
    }
  }

  lemma SameObjectsInOrder(ms: seq<Member>, ns: seq<Member>)
    requires DistinctKeys(ms) && DistinctKeys(ns)
    requires SameValue(Object(ms), Object(ns))
    ensures SameInOrder(Sorted(ms), Sorted(ns))
  {
    var ss, ts := Sorted(ms), Sorted(ns);
    SameMembers(ms);
    SameMembers(ns);
    SortedSorts(ms);
    SortedSorts(ns);
    hide Sorted, SameMember, SameInOrder, SameValue, SortedByKey, DistinctKeys;
    assert forall i :: 0 <= i < |ss| ==> SameMember(ss[i], ns);
    PartnersInOrder(ss, ns, ts);
  }

  /** Sorted members that all have a partner in another sorted list of the same length agree with it in order. */
  lemma PartnersInOrder(ss: seq<Member>, ns: seq<Member>, ts: seq<Member>)
    requires SortedByKey(ss) && SortedByKey(ts) && |ss| == |ts|
    requires (forall n :: n in ns ==> n in ts) && forall i :: 0 <= i < |ss| ==> SameMember(ss[i], ns)
    ensures SameInOrder(ss, ts)
  {
    hide SameMember, SameValue, SortedByKey;
    forall i | 0 <= i < |ss| ensures KeyAmong(ss[i].key, ts, |ts|) {
      var j := Partner(ss[i], ns, ts);
    }
    SortedKeysAgree(ss, |ss|, ts, |ts|);
    forall i | 0 <= i < |ss| ensures SameValue(ss[i].value, ts[i].value) {
      var j := Partner(ss[i], ns, ts);
      KeyOnce(ts, i, j);
    }
  }

  lemma Partner(m: Member, ns: seq<Member>, ts: seq<Member>) returns (j: nat)
    requires SameMember(m, ns) && forall n :: n in ns ==> n in ts
    ensures j < |ts| && ts[j].key == m.key && SameValue(m.value, ts[j].value)
  {
    var n :| n in ns && m.key == n.key && SameValue(m.value, n.value);
    assert n in ts;
    j :| 0 <= j < |ts| && ts[j] == n;
  }

  lemma KeyOnce(ms: seq<Member>, i: nat, j: nat)
    requires SortedByKey(ms) && i < |ms| && j < |ms| && ms[i].key == ms[j].key
    ensures i == j
  {
    LessTotal(ms[i].key, ms[i].key);
  }

  lemma {:induction false} SameText(a: Json, b: Json)
    requires WellFormed(a) && WellFormed(b) && SameValue(a, b)
    ensures Canonical(a) == Canonical(b)
    decreases a, 1, 0
  {
    match a
    case Array(xs) =>
      hide CanonicalItems;
      SameItems(a, xs, b, b.items);
    case Object(ms) =>
      hide SameMember;
      SameObjectTexts(a, b);
    case _ =>
  }

  lemma {:induction false} SameObjectTexts(a: Json, b: Json)
    requires a.Object? && b.Object?
    requires WellFormed(a) && WellFormed(b) && SameValue(a, b)
    ensures Canonical(a) == Canonical(b)
    decreases a, 0, |a.members| + 1
  {
    hide Sorted, SameMember, SameInOrder, CanonicalMembers, SameValue, DistinctKeys;
    SameMembers(a.members);
    SameMembers(b.members);
    SameObjectsInOrder(a.members, b.members);
    SameMemberTexts(a, Sorted(a.members), b, Sorted(b.members));
  }

  lemma {:induction false} SameItems(ca: Json, xs: seq<Json>, cb: Json, ys: seq<Json>)
    requires forall i :: 0 <= i < |xs| ==> xs[i] < ca && WellFormed(xs[i])
    requires forall i :: 0 <= i < |ys| ==> ys[i] < cb && WellFormed(ys[i])
    requires |xs| == |ys| && forall i :: 0 <= i < |xs| ==> SameValue(xs[i], ys[i])
    ensures CanonicalItems(ca, xs) == CanonicalItems(cb, ys)
    decreases ca, 0, |xs|
  {
    hide Canonical, WellFormed;
    if xs != [] {
      assert xs[0] in xs && ys[0] in ys;
      SameText(xs[0], ys[0]);
      SameItems(ca, xs[1..], cb, ys[1..]);
    }
  }

  lemma {:induction false} SameMemberTexts(ca: Json, ms: seq<Member>, cb: Json, ns: seq<Member>)
    requires forall i :: 0 <= i < |ms| ==> ms[i].value < ca && WellFormed(ms[i].value)
    requires forall i :: 0 <= i < |ns| ==> ns[i].value < cb && WellFormed(ns[i].value)
    requires SameInOrder(ms, ns)
    ensures CanonicalMembers(ca, ms) == CanonicalMembers(cb, ns)
    decreases ca, 0, |ms|
  {
    hide Canonical, WellFormed, Quote;
    if ms != [] {
      assert ms[0] in ms && ns[0] in ns;
      SameText(ms[0].value, ns[0].value);
      SameMemberTexts(ca, ms[1..], cb, ns[1..]);
    }
  }

  /** The text identifies the value: two values print the same exactly when they are equal up to the order in which
      their objects list keys. */
  lemma CanonicalJsonIsUnambiguous(a: Json, b: Json)
    requires WellFormed(a) && WellFormed(b)
    requires !HoldsNotJson(a) && !HoldsNotJson(b)
    ensures Canonical(a).Done? && Canonical(b).Done?
    ensures Canonical(a) == Canonical(b) <==> SameValue(a, b)
  {
    RefusedExactly(a);
    RefusedExactly(b);
    if Canonical(a) == Canonical(b) {
      ValueTells(a, b, [], []);
    }
    if SameValue(a, b) {
      SameText(a, b);
    }
  }
}

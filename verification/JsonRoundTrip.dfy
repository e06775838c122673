/** `json.loads(json.dumps(v)) == v` for every value Python can write except
    floats, with the parser's rest-of-input made explicit. */
module JsonRoundTrip {
  import opened Common
  import opened Json

  // ---------------------------------------------------------------- numbers

  predicate AllDigits(s: string) {
    forall j :: 0 <= j < |s| ==> IsDigit(s[j])
  }

  lemma {:induction false} DumpNatDigits(n: nat)
    ensures AllDigits(DumpNat(n)) && DigitsValue(DumpNat(n)) == n
    ensures n == 0 ==> DumpNat(n) == "0"
    ensures n > 0 ==> DumpNat(n)[0] != '0'
  {
    if n < 10 {
      assert DumpNat(n)[..0] == "";
    } else {
      DumpNatDigits(n / 10);
      var s := DumpNat(n);
      assert s[..|s| - 1] == DumpNat(n / 10);
      assert s[0] == DumpNat(n / 10)[0];
    }
  }

  lemma {:induction false} DigitRunOf(d: string, t: string)
    requires AllDigits(d) && (t == "" || !IsDigit(t[0]))
    ensures DigitRun(d + t) == |d|
  {
    if d == "" {
      assert d + t == t;
    } else {
      assert (d + t)[1..] == d[1..] + t;
      DigitRunOf(d[1..], t);
    }
  }

  lemma NatRoundTrip(n: nat, t: string)
    requires EndsNumber(t)
    ensures ParseNat(DumpNat(n) + t) == Some((n, t))
  {
    var d := DumpNat(n);
    DumpNatDigits(n);
    DigitRunOf(d, t);
    assert (d + t)[..|d|] == d && (d + t)[|d|..] == t;
    assert (d + t)[0] == d[0];
  }

  lemma IntRoundTrip(i: int, t: string)
    requires EndsNumber(t)
    ensures ParseInt(DumpInt(i) + t) == Some((i, t))
  {
    hide DumpNat, ParseNat, DigitsValue;
    if i < 0 {
      NatRoundTrip(-i, t);
      assert (DumpInt(i) + t)[1..] == DumpNat(-i) + t;
    } else {
      NatRoundTrip(i, t);
      DumpNatDigits(i);
      assert (DumpInt(i) + t)[0] == DumpNat(i)[0];
    }
  }

  // ---------------------------------------------------------------- strings

  lemma HexInverse(d: Nibble)
    ensures HexValue(HexDigit(d)) == Some(d)
  {
  }

  lemma UnitInverse(u: int)
    requires 0 <= u < 0x1_0000
    ensures Unit(u / 16 / 16 / 16, u / 16 / 16 % 16, u / 16 % 16, u % 16) == u
  {
    var q := u / 16;
    var r := q / 16;
    assert u == q * 16 + u % 16 && q == r * 16 + q % 16 && r == r / 16 * 16 + r % 16;
  }

  lemma UnitRoundTrip(u: int, t: string)
    requires 0 <= u < 0x1_0000
    ensures |EscapeUnit(u)| == 6 && EscapeUnit(u)[0] == '\\' && EscapeUnit(u)[1] == 'u'
    ensures ParseUnit((EscapeUnit(u) + t)[2..]) == Some((u, t))
  {
    hide HexDigit, HexValue, Unit;
    var s := (EscapeUnit(u) + t)[2..];
    HexInverse(u / 16 / 16 / 16); HexInverse(u / 16 / 16 % 16);
    HexInverse(u / 16 % 16); HexInverse(u % 16);
    UnitInverse(u);
    assert s[4..] == t;
  }

  lemma UnicodeRoundTrip(c: char, t: string)
    ensures var n := c as int;
            n < 0x1_0000 ==> ParseUnicode((EscapeUnit(n) + t)[2..]) == Some((c, t))
    ensures var n := c as int;
            n >= 0x1_0000 ==>
              var high, low := 0xD800 + (n - 0x1_0000) / 0x400, 0xDC00 + (n - 0x1_0000) % 0x400;
              ParseUnicode((EscapeUnit(high) + (EscapeUnit(low) + t))[2..]) == Some((c, t))
  {
    hide EscapeUnit, ParseUnit;
    var n := c as int;
    if n < 0x1_0000 {
      UnitRoundTrip(n, t);
    } else {
      var high, low := 0xD800 + (n - 0x1_0000) / 0x400, 0xDC00 + (n - 0x1_0000) % 0x400;
      var rest := EscapeUnit(low) + t;
      UnitRoundTrip(high, rest);
      UnitRoundTrip(low, t);
      assert rest[0] == '\\' && rest[1] == 'u';
    }
  }

  lemma CharRoundTrip(c: char, t: string)
    ensures ParseChar(EscapeChar(c) + t) == Some((c, t))
  {
    hide EscapeUnit, ParseUnicode;
    var n := c as int;
    var s := EscapeChar(c) + t;
    if c != '"' && c != '\\' && !(' ' <= c <= '~') && n !in {8, 9, 10, 12, 13} {
      UnicodeRoundTrip(c, t);
      if n < 0x1_0000 {
        UnitRoundTrip(n, t);
      } else {
        var high, low := EscapeUnit(0xD800 + (n - 0x1_0000) / 0x400), EscapeUnit(0xDC00 + (n - 0x1_0000) % 0x400);
        UnitRoundTrip(0xD800 + (n - 0x1_0000) / 0x400, low + t);
        assert s == high + (low + t);
      }
    } else if c == '"' || c == '\\' || !(' ' <= c <= '~') {
      assert s[2..] == t;
    } else {
      assert s[1..] == t;
    }
  }

  /** A string literal reads back as the string, whatever follows it. */
  lemma {:induction false} StringRoundTrip(s: string, t: string)
    ensures ParseString(Escape(s) + "\"" + t) == Some((s, t))
  {
    hide EscapeChar, ParseChar;
    var text := Escape(s) + "\"" + t;
    if s == "" {
      assert text == ['"'] + t;
      assert text[1..] == t;
    } else {
      var tail := Escape(s[1..]) + "\"" + t;
      assert text == EscapeChar(s[0]) + tail;
      CharRoundTrip(s[0], tail);
      StringRoundTrip(s[1..], t);
      assert s == [s[0]] + s[1..];
    }
  }

  // ----------------------------------------------------------------- values

  /** Printed values start with neither white space nor a closing bracket, so
      the parser never skips or stops early on one. */
  predicate Opens(s: string) {
    s != "" && !IsSpace(s[0]) && s[0] != ']' && s[0] != '}'
  }

  lemma DumpOpens(v: Value)
    requires Writable(v)
    ensures Opens(Dump(v))
  {
    match v
    case Int(i) =>
      if i >= 0 {
        DumpNatDigits(i);
      }
    case _ =>
  }

  lemma DumpItemsOpens(items: seq<Value>)
    requires items != [] && Writable(items[0])
    ensures Opens(DumpItems(items))
  {
    DumpOpens(items[0]);
    if |items| > 1 {
      assert DumpItems(items)[0] == Dump(items[0])[0];
    }
  }

  lemma SkipOpening(s: string)
    requires Opens(s)
    ensures SkipSpace(s) == s && SkipSpace(" " + s) == s
  {
    assert (" " + s)[1..] == s;
  }

  // One lemma for each rule of the grammar: what the parser does on a text
  // whose parts it is already known to parse.

  lemma ParseLiteral(v: Value, t: string)
    requires v.Null? || v.Bool?
    ensures ParseValue(Dump(v) + t) == Some((v, t))
  {
    hide ParseInt, ParseString, ParseItems, ParseMembers;
    var s := Dump(v) + t;
    if v == Bool(false) {
      assert s[..5] == "false" && s[5..] == t;
    } else {
      assert s[..4] == Dump(v) && s[4..] == t;
    }
  }

  lemma ParseNumber(i: int, t: string)
    requires EndsNumber(t)
    ensures ParseValue(DumpInt(i) + t) == Some((Int(i), t))
  {
    hide DumpNat, ParseInt, ParseString, ParseItems, ParseMembers;
    var s := DumpInt(i) + t;
    IntRoundTrip(i, t);
    if i < 0 {
      assert s[0] == '-';
    } else {
      DumpNatDigits(i);
      assert s[0] == DumpNat(i)[0];
    }
  }

  lemma ParseText(cs: string, t: string)
    ensures ParseValue(DumpString(cs) + t) == Some((Str(cs), t))
  {
    hide Escape, ParseInt, ParseString, ParseItems, ParseMembers;
    var s := DumpString(cs) + t;
    StringRoundTrip(cs, t);
    assert s[1..] == Escape(cs) + "\"" + t;
  }

  lemma ParseArray(body: string, items: seq<Value>, t: string)
    requires Opens(body) && ParseItems(body) == Some((items, t))
    ensures ParseValue("[" + body) == Some((Arr(items), t))
  {
    hide ParseInt, ParseString, ParseItems, ParseMembers;
    var s := "[" + body;
    assert s[1..] == body;
    SkipOpening(body);
  }

  lemma ParseObject(body: string, ms: seq<Member>, t: string)
    requires Opens(body) && ParseMembers(body) == Some((ms, t))
    ensures ParseValue("{" + body) == Some((Obj(DictOf(ms)), t))
  {
    hide ParseInt, ParseString, ParseItems, ParseMembers, DictOf;
    var s := "{" + body;
    assert s[1..] == body;
    SkipOpening(body);
  }

  lemma ParseEmpty(t: string)
    ensures ParseValue("[" + ("]" + t)) == Some((Arr([]), t))
    ensures ParseValue("{" + ("}" + t)) == Some((Obj([]), t))
  {
    hide ParseInt, ParseString, ParseItems, ParseMembers, DictOf;
    assert ("[" + ("]" + t))[1..] == "]" + t && ("]" + t)[1..] == t;
    assert ("{" + ("}" + t))[1..] == "}" + t && ("}" + t)[1..] == t;
  }

  lemma ParseItemsLast(s: string, v: Value, t: string)
    requires ParseValue(s) == Some((v, "]" + t))
    ensures ParseItems(s) == Some(([v], t))
  {
    hide ParseValue;
    assert ("]" + t)[1..] == t;
  }

  lemma ParseItemsNext(s: string, v: Value, next: string, vs: seq<Value>, t: string)
    requires ParseValue(s) == Some((v, ", " + next))
    requires Opens(next) && ParseItems(next) == Some((vs, t))
    ensures ParseItems(s) == Some(([v] + vs, t))
  {
    hide ParseValue;
    assert (", " + next)[1..] == " " + next;
    SkipOpening(next);
  }

  lemma ParseMemberStep(key: string, value: string, v: Value, t: string)
    requires Opens(value) && ParseValue(value) == Some((v, t))
    ensures ParseMember(DumpString(key) + ": " + value) == Some((Member(key, v), t))
  {
    hide ParseValue, ParseString, Escape;
    var s := DumpString(key) + ": " + value;
    var rest := ": " + value;
    assert s[1..] == Escape(key) + "\"" + rest;
    StringRoundTrip(key, rest);
    assert rest[1..] == " " + value;
    SkipOpening(value);
  }

  lemma ParseMembersLast(s: string, m: Member, t: string)
    requires ParseMember(s) == Some((m, "}" + t))
    ensures ParseMembers(s) == Some(([m], t))
  {
    hide ParseMember;
    assert ("}" + t)[1..] == t;
  }

  lemma ParseMembersNext(s: string, m: Member, next: string, ms: seq<Member>, t: string)
    requires ParseMember(s) == Some((m, ", " + next))
    requires Opens(next) && ParseMembers(next) == Some((ms, t))
    ensures ParseMembers(s) == Some(([m] + ms, t))
  {
    hide ParseMember;
    assert (", " + next)[1..] == " " + next;
    SkipOpening(next);
  }

  /** Reading back any writable value, at any depth, in front of any text that
      cannot continue a number. */
  lemma {:induction false} ValueRoundTrip(v: Value, t: string)
    requires Writable(v) && EndsNumber(t)
    ensures ParseValue(Dump(v) + t) == Some((v, t))
    decreases v, 3
  {
    hide ParseValue, ParseItems, ParseMembers, DictOf, DumpInt, DumpString;
    match v
    case Int(i) => ParseNumber(i, t);
    case Str(cs) => ParseText(cs, t);
    case Arr(items) =>
      if items == [] {
        ParseEmpty(t);
        assert Dump(v) + t == "[" + ("]" + t);
      } else {
        var body := DumpItems(items) + "]" + t;
        DumpItemsOpens(items);
        assert body[0] == DumpItems(items)[0];
        ItemsRoundTrip(items, t);
        ParseArray(body, items, t);
        assert Dump(v) + t == "[" + body;
      }
    case Obj(ms) =>
      if ms == [] {
        ParseEmpty(t);
        assert Dump(v) + t == "{" + ("}" + t);
      } else {
        var body := DumpMembers(ms) + "}" + t;
        DumpMembersOpens(ms);
        assert body[0] == DumpMembers(ms)[0];
        MembersRoundTrip(ms, t);
        ParseObject(body, ms, t);
        DictOfDistinct(ms);
        assert Dump(v) + t == "{" + body;
      }
    case _ => ParseLiteral(v, t);
  }

  lemma DumpMembersOpens(ms: seq<Member>)
    requires ms != []
    ensures Opens(DumpMembers(ms))
  {
    assert DumpMember(ms[0])[0] == '"';
  }

  lemma {:induction false} ItemsRoundTrip(items: seq<Value>, t: string)
    requires items != []
    requires forall i :: 0 <= i < |items| ==> Writable(items[i])
    ensures ParseItems(DumpItems(items) + "]" + t) == Some((items, t))
    decreases items, 0
  {
    hide ParseValue, ParseItems, Dump;
    var s := DumpItems(items) + "]" + t;
    if |items| == 1 {
      assert s == Dump(items[0]) + ("]" + t);
      ValueRoundTrip(items[0], "]" + t);
      ParseItemsLast(s, items[0], t);
      assert items == [items[0]];
    } else {
      var next := DumpItems(items[1..]) + "]" + t;
      assert s == Dump(items[0]) + (", " + next);
      ValueRoundTrip(items[0], ", " + next);
      DumpItemsOpens(items[1..]);
      assert next[0] == DumpItems(items[1..])[0];
      ItemsRoundTrip(items[1..], t);
      ParseItemsNext(s, items[0], next, items[1..], t);
      assert items == [items[0]] + items[1..];
    }
  }

  lemma {:induction false} MemberRoundTrip(m: Member, t: string)
    requires Writable(m.val) && EndsNumber(t)
    ensures ParseMember(DumpMember(m) + t) == Some((m, t))
    decreases m, 4
  {
    hide ParseValue, ParseMember, Dump, DumpString;
    var value := Dump(m.val) + t;
    DumpOpens(m.val);
    assert value[0] == Dump(m.val)[0];
    ValueRoundTrip(m.val, t);
    ParseMemberStep(m.key, value, m.val, t);
    assert DumpMember(m) + t == DumpString(m.key) + ": " + value;
  }

  lemma {:induction false} MembersRoundTrip(ms: seq<Member>, t: string)
    requires ms != []
    requires forall i :: 0 <= i < |ms| ==> Writable(ms[i].val)
    ensures ParseMembers(DumpMembers(ms) + "}" + t) == Some((ms, t))
    decreases ms, 0
  {
    hide ParseMember, ParseMembers, DumpMember;
    var s := DumpMembers(ms) + "}" + t;
    if |ms| == 1 {
      assert s == DumpMember(ms[0]) + ("}" + t);
      MemberRoundTrip(ms[0], "}" + t);
      ParseMembersLast(s, ms[0], t);
      assert ms == [ms[0]];
    } else {
      var next := DumpMembers(ms[1..]) + "}" + t;
      assert s == DumpMember(ms[0]) + (", " + next);
      MemberRoundTrip(ms[0], ", " + next);
      DumpMembersOpens(ms[1..]);
      assert next[0] == DumpMembers(ms[1..])[0];
      MembersRoundTrip(ms[1..], t);
      ParseMembersNext(s, ms[0], next, ms[1..], t);
      assert ms == [ms[0]] + ms[1..];
    }
  }

  /** The law `json.loads(json.dumps(v)) == v`. */
  lemma TextRoundTrip(v: Value)
    requires Writable(v)
    ensures Parse(Dump(v)) == Some(v)
  {
    DumpOpens(v);
    SkipOpening(Dump(v));
    ValueRoundTrip(v, "");
    assert Dump(v) + "" == Dump(v);
  }
}

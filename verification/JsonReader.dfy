/** A reader for printed JSON, and what equal canonical texts mean. */
module JsonReader {
  import opened Wrappers
  import opened CanonicalJson

  // ----- Strings -----

  predicate IsHex(u: Unit) { 0x30 <= u <= 0x39 || 0x61 <= u <= 0x66 }

  function HexValue(u: Unit): (d: Unit)
    requires IsHex(u)
    ensures d < 16
  {
    if u <= 0x39 then u - 0x30 else u - 0x61 + 10
  }

  /** One code unit of a string literal, written plainly or as an escape. */
  function ReadUnit(t: Text): (r: Option<(Unit, Text)>)
    ensures r.Some? ==> |r.value.1| < |t|
  {
    if t == [] || t[0] == QUOTE then None
    else if t[0] != BACKSLASH then Some((t[0], t[1..]))
    else if |t| >= 6 && t[1] == 0x75 && IsHex(t[2]) && IsHex(t[3]) && IsHex(t[4]) && IsHex(t[5]) then
      Some((HexValue(t[2]) * 0x1000 + HexValue(t[3]) * 0x100 + HexValue(t[4]) * 16 + HexValue(t[5]), t[6..]))
    else if |t| >= 2 then
      match t[1]
      case 0x22 => Some((QUOTE, t[2..]))
      case 0x5C => Some((BACKSLASH, t[2..]))
      case 0x62 => Some((0x08, t[2..]))
      case 0x74 => Some((0x09, t[2..]))
      case 0x6E => Some((0x0A, t[2..]))
      case 0x66 => Some((0x0C, t[2..]))
      case 0x72 => Some((0x0D, t[2..]))
      case _ => None
    else None
  }

  /** The string up to the closing quote. */
  function ReadString(t: Text): (r: Option<(Text, Text)>)
    ensures r.Some? ==> |r.value.1| < |t|
    decreases |t|
  {
    if t != [] && t[0] == QUOTE then Some(([], t[1..]))
    else match ReadUnit(t)
      case None => None
      case Some((u, rest)) =>
        match ReadString(rest)
        case None => None
        case Some((s, after)) => Some(([u] + s, after))
  }

  lemma {:induction false} HexReadsBack(u: Unit)
    ensures var e := UnicodeEscape(u);
      && IsHex(e[2]) && IsHex(e[3]) && IsHex(e[4]) && IsHex(e[5])
      && HexValue(e[2]) * 0x1000 + HexValue(e[3]) * 0x100 + HexValue(e[4]) * 16 + HexValue(e[5]) == u
  {
    forall d: Unit | d < 16 ensures IsHex(HexDigit(d)) && HexValue(HexDigit(d)) == d {}
    assert u / 0x100 == u / 0x1000 * 16 + u / 0x100 % 16;
    assert u / 16 == u / 0x100 * 16 + u / 16 % 16;
  }

  /** The characters that the texts are made of. */
  lemma Spelling()
    ensures [QUOTE, COMMA, COLON, BACKSLASH] == Units("\",:\\")
    ensures [OPEN_ARRAY, CLOSE_ARRAY, OPEN_OBJECT, CLOSE_OBJECT] == Units("[]{}")
    ensures NULL_TEXT == Units("null") && TRUE_TEXT == Units("true") && FALSE_TEXT == Units("false")
  {}

  function Units(s: string): (t: Text)
    requires forall i | 0 <= i < |s| :: s[i] as int < 0x1_0000
    ensures |t| == |s| && forall i | 0 <= i < |s| :: t[i] as int == s[i] as int
  {
    seq(|s|, i requires 0 <= i < |s| => s[i] as int as Unit)
  }

  /** The code units with short escapes. */
  lemma ShortEscapes()
    ensures Escape(0x22) == Units("\\\"") && Escape(0x5C) == Units("\\\\")
    ensures Escape(0x08) == Units("\\b") && Escape(0x09) == Units("\\t") && Escape(0x0A) == Units("\\n")
    ensures Escape(0x0C) == Units("\\f") && Escape(0x0D) == Units("\\r")
  {}

  predicate HasShortEscape(u: Unit) { u in {0x22, 0x5C, 0x08, 0x09, 0x0A, 0x0C, 0x0D} }

  /** The other control characters and unpaired surrogates are written as four lower-case digits; every
      other unit stands for itself. */
  lemma EscapeForm(u: Unit)
    requires !HasShortEscape(u)
    ensures if u < 0x20 || 0xD800 <= u < 0xE000
      then |Escape(u)| == 6 && Escape(u)[..2] == Units("\\u") && forall i | 2 <= i < 6 :: IsHex(Escape(u)[i])
      else Escape(u) == [u]
  {
    HexReadsBack(u);
  }

  lemma HexDigits(u: Unit)
    ensures IsHex(u) <==> u in Units("0123456789abcdef")
  {
    assert Units("0123456789abcdef") ==
      [0x30, 0x31, 0x32, 0x33, 0x34, 0x35, 0x36, 0x37, 0x38, 0x39, 0x61, 0x62, 0x63, 0x64, 0x65, 0x66];
  }

  /** Every surrogate belongs to a pair. */
  predicate WellFormed(s: Text) {
    s == []
    || (|s| >= 2 && 0xD800 <= s[0] < 0xDC00 && 0xDC00 <= s[1] < 0xE000 && WellFormed(s[2..]))
    || (!(0xD800 <= s[0] < 0xE000) && WellFormed(s[1..]))
  }

  lemma {:induction false} WellFormedJoins(a: Text, b: Text)
    requires WellFormed(a) && WellFormed(b)
    ensures WellFormed(a + b)
    decreases |a|
  {
    if a == [] {
      assert a + b == b;
    } else if 0xD800 <= a[0] < 0xE000 {
      WellFormedJoins(a[2..], b);
      assert (a + b)[2..] == a[2..] + b;
    } else {
      WellFormedJoins(a[1..], b);
      assert (a + b)[1..] == a[1..] + b;
    }
  }

  lemma NoSurrogates(s: Text)
    requires forall i | 0 <= i < |s| :: !(0xD800 <= s[i] < 0xE000)
    ensures WellFormed(s)
  {
    if s != [] {
      NoSurrogates(s[1..]);
    }
  }

  lemma PairIsWellFormed(a: Unit, b: Unit)
    requires HighSurrogate(a) && LowSurrogate(b)
    ensures WellFormed([a, b])
  {
    assert [a, b][2..] == [];
  }

  lemma EscapeIsWellFormed(u: Unit)
    ensures WellFormed(Escape(u))
  {
    if !HasShortEscape(u) {
      EscapeForm(u);
    }
    NoSurrogates(Escape(u));
  }

  /** Whatever string is printed, the text has no unpaired surrogate. */
  lemma {:induction false} PrintedIsWellFormed(s: Text)
    ensures WellFormed(EscapeAll(s))
    decreases |s|
  {
    if s == [] {
    } else if |s| >= 2 && HighSurrogate(s[0]) && LowSurrogate(s[1]) {
      PrintedIsWellFormed(s[2..]);
      PairIsWellFormed(s[0], s[1]);
      WellFormedJoins([s[0], s[1]], EscapeAll(s[2..]));
    } else {
      PrintedIsWellFormed(s[1..]);
      EscapeIsWellFormed(s[0]);
      WellFormedJoins(Escape(s[0]), EscapeAll(s[1..]));
    }
  }

  /** A string that needs no escape is printed as it is, surrogate pairs included. */
  lemma {:induction false} PlainStaysPlain(s: Text)
    requires WellFormed(s) && forall i | 0 <= i < |s| :: 0x20 <= s[i] && s[i] != 0x22 && s[i] != 0x5C
    ensures EscapeAll(s) == s
    decreases |s|
  {
    if s == [] {
    } else if 0xD800 <= s[0] < 0xE000 {
      PlainStaysPlain(s[2..]);
      PairThenPlain(s);
    } else {
      PlainStaysPlain(s[1..]);
      assert Escape(s[0]) == [s[0]];
      assert s == [s[0]] + s[1..];
    }
  }

  lemma PairThenPlain(s: Text)
    requires |s| >= 2 && HighSurrogate(s[0]) && LowSurrogate(s[1]) && EscapeAll(s[2..]) == s[2..]
    ensures EscapeAll(s) == s
  {
    assert s == [s[0], s[1]] + s[2..];
  }

  lemma DigitsReadBack(u: Unit, rest: Text)
    ensures ReadUnit(UnicodeEscape(u) + rest) == Some((u, rest))
  {
    HexReadsBack(u);
    var t := UnicodeEscape(u) + rest;
    assert t[6..] == rest;
    assert forall i | 0 <= i < 6 :: t[i] == UnicodeEscape(u)[i];
  }

  lemma UnitReadsBack(u: Unit, rest: Text)
    ensures ReadUnit(Escape(u) + rest) == Some((u, rest))
  {
    if |Escape(u)| == 6 {
      DigitsReadBack(u, rest);
    } else {
      var t := Escape(u) + rest;
      assert t[|Escape(u)|..] == rest;
      assert t[0] == Escape(u)[0] && (|Escape(u)| == 2 ==> t[1] == Escape(u)[1]);
    }
  }

  lemma UnitThenString(t: Text, u: Unit, next: Text, s: Text, rest: Text)
    requires ReadUnit(t) == Some((u, next)) && ReadString(next) == Some((s, rest))
    ensures ReadString(t) == Some(([u] + s, rest))
  {}

  lemma UnitThenRest(unit: Text, u: Unit, middle: Text, end: Text, s: Text, rest: Text)
    requires ReadUnit(unit + (middle + end)) == Some((u, middle + end))
    requires ReadString(middle + end) == Some((s, rest))
    ensures ReadString(unit + middle + end) == Some(([u] + s, rest))
  {
    assert unit + middle + end == unit + (middle + end);
    UnitThenString(unit + (middle + end), u, middle + end, s, rest);
  }

  lemma PlainThenRest(u: Unit, next: Text, s: Text, rest: Text)
    requires u != QUOTE && u != BACKSLASH && ReadString(next) == Some((s, rest))
    ensures ReadString([u] + next) == Some(([u] + s, rest))
  {
    assert ([u] + next)[1..] == next;
    UnitThenString([u] + next, u, next, s, rest);
  }

  lemma PairThenRest(s: Text, end: Text, rest: Text)
    requires |s| >= 2 && HighSurrogate(s[0]) && LowSurrogate(s[1])
    requires ReadString(EscapeAll(s[2..]) + end) == Some((s[2..], rest))
    ensures ReadString(EscapeAll(s) + end) == Some((s, rest))
  {
    var next := EscapeAll(s[2..]) + end;
    PlainThenRest(s[1], next, s[2..], rest);
    PlainThenRest(s[0], [s[1]] + next, [s[1]] + s[2..], rest);
    PairText(s, end);
    assert [s[0]] + ([s[1]] + s[2..]) == s;
  }

  lemma PairFirst(a: Unit, b: Unit, rest: Text, end: Text)
    ensures ([a, b] + rest) + end == [a] + ([b] + (rest + end))
  {
  }

  lemma PairText(s: Text, end: Text)
    requires |s| >= 2 && HighSurrogate(s[0]) && LowSurrogate(s[1])
    ensures EscapeAll(s) + end == [s[0]] + ([s[1]] + (EscapeAll(s[2..]) + end))
  {
    PairFirst(s[0], s[1], EscapeAll(s[2..]), end);
  }

  lemma {:induction false} StringReadsBack(s: Text, rest: Text)
    ensures ReadString(EscapeAll(s) + ([QUOTE] + rest)) == Some((s, rest))
    decreases |s|
  {
    var end := [QUOTE] + rest;
    if s == [] {
      assert EscapeAll(s) + end == end && end[1..] == rest;
    } else if |s| >= 2 && HighSurrogate(s[0]) && LowSurrogate(s[1]) {
      StringReadsBack(s[2..], rest);
      PairThenRest(s, end, rest);
    } else {
      StringReadsBack(s[1..], rest);
      UnitReadsBack(s[0], EscapeAll(s[1..]) + end);
      UnitThenRest(Escape(s[0]), s[0], EscapeAll(s[1..]), end, s[1..], rest);
      assert [s[0]] + s[1..] == s;
    }
  }

  lemma QuotedReadsBack(s: Text, rest: Text)
    ensures var t := Quote(s) + rest; t[0] == QUOTE && ReadString(t[1..]) == Some((s, rest))
  {
    StringReadsBack(s, rest);
    assert (Quote(s) + rest)[1..] == EscapeAll(s) + ([QUOTE] + rest);
  }

  // ----- Numbers -----

  function NumberLength(t: Text): (n: nat)
    ensures n <= |t| && (forall i | 0 <= i < n :: NumberUnit(t[i])) && (n < |t| ==> !NumberUnit(t[n]))
  {
    if t == [] || !NumberUnit(t[0]) then 0 else 1 + NumberLength(t[1..])
  }

  /** A number ends where a character follows that no number contains. */
  predicate Delimited(rest: Text) {
    rest == [] || !NumberUnit(rest[0])
  }

  lemma {:induction false} NumberReadsBack(text: Text, rest: Text)
    requires (forall i | 0 <= i < |text| :: NumberUnit(text[i])) && Delimited(rest)
    ensures NumberLength(text + rest) == |text|
  {
    if text == [] {
      assert text + rest == rest;
    } else {
      NumberReadsBack(text[1..], rest);
      assert (text + rest)[1..] == text[1..] + rest;
    }
  }

  // ----- Values -----

  predicate StartsWith(t: Text, prefix: Text) {
    |prefix| <= |t| && t[..|prefix|] == prefix
  }

  function Read(t: Text): (r: Option<(Json, Text)>)
    ensures r.Some? ==> |r.value.1| < |t|
    decreases |t|, 0
  {
    if t == [] then None
    else if t[0] == QUOTE then
      match ReadString(t[1..])
      case None => None
      case Some((s, rest)) => Some((String(s), rest))
    else if t[0] == OPEN_ARRAY then
      if |t| > 1 && t[1] == CLOSE_ARRAY then Some((Array(NoItem), t[2..]))
      else match ReadItems(t[1..])
        case None => None
        case Some((items, rest)) => Some((Array(items), rest))
    else if t[0] == OPEN_OBJECT then
      if |t| > 1 && t[1] == CLOSE_OBJECT then Some((Object(NoMember), t[2..]))
      else match ReadMembers(t[1..])
        case None => None
        case Some((ms, rest)) => Some((Object(ms), rest))
    else if StartsWith(t, NULL_TEXT) then Some((Null, t[4..]))
    else if StartsWith(t, TRUE_TEXT) then Some((Bool(true), t[4..]))
    else if StartsWith(t, FALSE_TEXT) then Some((Bool(false), t[5..]))
    else
      var n := NumberLength(t);
      if IsNumberText(t[..n]) then Some((Number(t[..n]), t[n..])) else None
  }

  function ReadItems(t: Text): (r: Option<(Items, Text)>)
    ensures r.Some? ==> |r.value.1| < |t|
    decreases |t|, 1
  {
    match Read(t)
    case None => None
    case Some((v, rest)) =>
      if rest == [] then None
      else if rest[0] == CLOSE_ARRAY then Some((Item(v, NoItem), rest[1..]))
      else if rest[0] != COMMA then None
      else match ReadItems(rest[1..])
        case None => None
        case Some((items, after)) => Some((Item(v, items), after))
  }

  function ReadMembers(t: Text): (r: Option<(Members, Text)>)
    ensures r.Some? ==> |r.value.1| < |t|
    decreases |t|, 1
  {
    if t == [] || t[0] != QUOTE then None
    else match ReadString(t[1..])
      case None => None
      case Some((key, colon)) =>
        if colon == [] || colon[0] != COLON then None
        else match Read(colon[1..])
          case None => None
          case Some((v, rest)) =>
            if rest == [] then None
            else if rest[0] == CLOSE_OBJECT then Some((Member(key, v, NoMember), rest[1..]))
            else if rest[0] != COMMA then None
            else match ReadMembers(rest[1..])
              case None => None
              case Some((ms, after)) => Some((Member(key, v, ms), after))
  }

  // ----- Round trip -----

  /** A printed value is never empty and never starts with a closing bracket. */
  lemma FirstUnit(v: Json)
    ensures |Show(v)| > 0 && Show(v)[0] != CLOSE_ARRAY
  {}

  lemma FirstOfMembers(ms: Members)
    requires ms.Member?
    ensures |ShowMembers(ms)| > 0 && ShowMembers(ms)[0] == QUOTE
  {}

  lemma ReadArray(t: Text, items: Items, rest: Text)
    requires |t| > 1 && t[0] == OPEN_ARRAY && t[1] != CLOSE_ARRAY
    requires ReadItems(t[1..]) == Some((items, rest))
    ensures Read(t) == Some((Array(items), rest))
  {}

  lemma ReadObject(t: Text, ms: Members, rest: Text)
    requires |t| > 1 && t[0] == OPEN_OBJECT && t[1] != CLOSE_OBJECT
    requires ReadMembers(t[1..]) == Some((ms, rest))
    ensures Read(t) == Some((Object(ms), rest))
  {}

  lemma Bracketed(left: Unit, middle: Text, right: Unit, rest: Text)
    requires middle != []
    ensures var t := [left] + middle + [right] + rest;
      t[0] == left && t[1] == middle[0] && t[1..] == middle + ([right] + rest)
  {
    assert ([left] + middle + [right] + rest)[1..] == middle + ([right] + rest);
  }

  lemma ArrayReadsBack(items: Items, rest: Text)
    requires items.Item? && ReadItems(ShowItems(items) + ([CLOSE_ARRAY] + rest)) == Some((items, rest))
    ensures Read(Show(Array(items)) + rest) == Some((Array(items), rest))
  {
    FirstUnit(items.head);
    Bracketed(OPEN_ARRAY, ShowItems(items), CLOSE_ARRAY, rest);
    ReadArray(Show(Array(items)) + rest, items, rest);
  }

  lemma ObjectReadsBack(ms: Members, rest: Text)
    requires ms.Member? && ReadMembers(ShowMembers(ms) + ([CLOSE_OBJECT] + rest)) == Some((ms, rest))
    ensures Read(Show(Object(ms)) + rest) == Some((Object(ms), rest))
  {
    FirstOfMembers(ms);
    Bracketed(OPEN_OBJECT, ShowMembers(ms), CLOSE_OBJECT, rest);
    ReadObject(Show(Object(ms)) + rest, ms, rest);
  }

  lemma EmptyReadsBack(v: Json, rest: Text)
    requires v == Array(NoItem) || v == Object(NoMember)
    ensures Read(Show(v) + rest) == Some((v, rest))
  {
    assert (Show(v) + rest)[2..] == rest;
  }

  lemma NumberValueReadsBack(text: NumberText, rest: Text)
    requires Delimited(rest)
    ensures Read(text + rest) == Some((Number(text), rest))
  {
    NumberReadsBack(text, rest);
    assert (text + rest)[|text|..] == rest && (text + rest)[..|text|] == text;
    assert (text + rest)[0] == text[0];
  }

  lemma WordReadsBack(v: Json, rest: Text)
    requires v.Null? || v.Bool?
    ensures Read(Show(v) + rest) == Some((v, rest))
  {
    var t := Show(v) + rest;
    assert t[|Show(v)|..] == rest && t[..|Show(v)|] == Show(v);
  }

  lemma AtomReadsBack(v: Json, rest: Text)
    requires Delimited(rest) && !v.Array? && !v.Object?
    ensures Read(Show(v) + rest) == Some((v, rest))
  {
    if v.String? {
      QuotedReadsBack(v.chars, rest);
    } else if v.Number? {
      NumberValueReadsBack(v.text, rest);
    } else {
      WordReadsBack(v, rest);
    }
  }

  lemma {:induction false} PrintedReadsBack(v: Json, rest: Text)
    requires Delimited(rest)
    ensures Read(Show(v) + rest) == Some((v, rest))
    decreases v, 0
  {
    if v == Array(NoItem) || v == Object(NoMember) {
      EmptyReadsBack(v, rest);
    } else if v.Array? {
      ItemsReadBack(v.items, rest);
      ArrayReadsBack(v.items, rest);
    } else if v.Object? {
      MembersReadBack(v.members, rest);
      ObjectReadsBack(v.members, rest);
    } else {
      AtomReadsBack(v, rest);
    }
  }

  lemma ItemsText(items: Items, rest: Text)
    requires items.Item? && items.tail.Item?
    ensures ShowItems(items) + ([CLOSE_ARRAY] + rest)
         == Show(items.head) + ([COMMA] + (ShowItems(items.tail) + ([CLOSE_ARRAY] + rest)))
  {}

  lemma LastItem(t: Text, v: Json, rest: Text)
    requires Read(t) == Some((v, [CLOSE_ARRAY] + rest))
    ensures ReadItems(t) == Some((Item(v, NoItem), rest))
  {
    assert ([CLOSE_ARRAY] + rest)[1..] == rest;
  }

  lemma NextItem(t: Text, v: Json, next: Text, items: Items, rest: Text)
    requires Read(t) == Some((v, [COMMA] + next)) && ReadItems(next) == Some((items, rest))
    ensures ReadItems(t) == Some((Item(v, items), rest))
  {
    assert ([COMMA] + next)[1..] == next;
  }

  lemma {:induction false} ItemsReadBack(items: Items, rest: Text)
    requires items.Item?
    ensures ReadItems(ShowItems(items) + ([CLOSE_ARRAY] + rest)) == Some((items, rest))
    decreases items, 1
  {
    if items.tail.NoItem? {
      PrintedReadsBack(items.head, [CLOSE_ARRAY] + rest);
      LastItem(ShowItems(items) + ([CLOSE_ARRAY] + rest), items.head, rest);
    } else {
      var next := ShowItems(items.tail) + ([CLOSE_ARRAY] + rest);
      PrintedReadsBack(items.head, [COMMA] + next);
      ItemsReadBack(items.tail, rest);
      ItemsText(items, rest);
      NextItem(Show(items.head) + ([COMMA] + next), items.head, next, items.tail, rest);
    }
  }

  /** What follows the first member's value in the text of an object. */
  function AfterFirst(ms: Members, rest: Text): Text
    requires ms.Member?
  {
    if ms.rest.NoMember? then [CLOSE_OBJECT] + rest
    else [COMMA] + (ShowMembers(ms.rest) + ([CLOSE_OBJECT] + rest))
  }

  lemma Joined(a: Text, u: Unit, b: Text, c: Text)
    ensures ((a + [u]) + b) + c == a + ([u] + (b + c))
  {
  }

  lemma MembersText(ms: Members, rest: Text)
    requires ms.Member?
    ensures ShowMembers(ms) + ([CLOSE_OBJECT] + rest)
         == Quote(ms.key) + ([COLON] + (Show(ms.value) + AfterFirst(ms, rest)))
  {
    var entry, end := Quote(ms.key) + [COLON] + Show(ms.value), [CLOSE_OBJECT] + rest;
    Joined(Quote(ms.key), COLON, Show(ms.value), AfterFirst(ms, rest));
    if ms.rest.Member? {
      Joined(entry, COMMA, ShowMembers(ms.rest), end);
    }
  }

  lemma ReadEntry(t: Text, key: Text, value: Text, v: Json, after: Text)
    requires t != [] && t[0] == QUOTE && ReadString(t[1..]) == Some((key, [COLON] + value))
    requires Read(value) == Some((v, after)) && after != []
    ensures after[0] == CLOSE_OBJECT ==> ReadMembers(t) == Some((Member(key, v, NoMember), after[1..]))
    ensures after[0] == COMMA && ReadMembers(after[1..]).Some? ==>
      var (ms, rest) := ReadMembers(after[1..]).value; ReadMembers(t) == Some((Member(key, v, ms), rest))
  {
    assert ([COLON] + value)[1..] == value;
  }

  lemma {:induction false} MembersReadBack(ms: Members, rest: Text)
    requires ms.Member?
    ensures ReadMembers(ShowMembers(ms) + ([CLOSE_OBJECT] + rest)) == Some((ms, rest))
    decreases ms, 1
  {
    var after := AfterFirst(ms, rest);
    var value := Show(ms.value) + after;
    PrintedReadsBack(ms.value, after);
    QuotedReadsBack(ms.key, [COLON] + value);
    MembersText(ms, rest);
    ReadEntry(Quote(ms.key) + ([COLON] + value), ms.key, value, ms.value, after);
    if ms.rest.Member? {
      MembersReadBack(ms.rest, rest);
      assert after[1..] == ShowMembers(ms.rest) + ([CLOSE_OBJECT] + rest);
    } else {
      assert after[1..] == rest;
    }
  }

  /** Reading a canonical text recovers the value with its keys sorted, whatever delimiter follows. */
  lemma CanonicalReadsBack(v: Json, rest: Text)
    requires Distinct(v) && Delimited(rest)
    ensures Read(Canonical(v) + rest) == Some((KeySorted(v), rest))
  {
    CanonicalSortsKeys(v);
    PrintedReadsBack(KeySorted(v), rest);
  }

  /** In the printed text the keys of every object ascend by code units. */
  lemma PrintedKeysAscend(v: Json, rest: Text)
    requires Distinct(v) && Delimited(rest)
    ensures Read(Canonical(v) + rest).Some? && KeysAscend(Read(Canonical(v) + rest).value.0)
  {
    CanonicalReadsBack(v, rest);
    SortedKeysAscend(v);
  }

  /** Equal texts exactly for values that differ in nothing but key order. */
  lemma CanonicalForm(a: Json, b: Json)
    requires Distinct(a) && Distinct(b)
    ensures Canonical(a) == Canonical(b) <==> Same(a, b)
  {
    CanonicalReadsBack(a, []);
    CanonicalReadsBack(b, []);
    assert Canonical(a) + [] == Canonical(a) && Canonical(b) + [] == Canonical(b);
    CanonicalSortsKeys(a);
    CanonicalSortsKeys(b);
    SameMeansSortedAlike(a, b);
  }
}

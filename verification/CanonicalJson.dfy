/** Canonical JSON text: the printer, and equality of values up to key order. */
module CanonicalJson {
  newtype Unit = u: int | 0 <= u < 0x1_0000  // one UTF-16 code unit

  type Text = seq<Unit>

  const QUOTE: Unit := 0x22
  const COMMA: Unit := 0x2C
  const COLON: Unit := 0x3A
  const OPEN_ARRAY: Unit := 0x5B
  const BACKSLASH: Unit := 0x5C
  const CLOSE_ARRAY: Unit := 0x5D
  const OPEN_OBJECT: Unit := 0x7B
  const CLOSE_OBJECT: Unit := 0x7D

  const NULL_TEXT: Text := [0x6E, 0x75, 0x6C, 0x6C]
  const TRUE_TEXT: Text := [0x74, 0x72, 0x75, 0x65]
  const FALSE_TEXT: Text := [0x66, 0x61, 0x6C, 0x73, 0x65]

  /** Characters a printed number consists of: digits, sign, point and exponent mark. */
  predicate NumberUnit(u: Unit) {
    0x30 <= u <= 0x39 || u == 0x2B || u == 0x2D || u == 0x2E || u == 0x45 || u == 0x65
  }

  predicate IsNumberText(t: Text) {
    |t| > 0 && (t[0] == 0x2D || 0x30 <= t[0] <= 0x39) && forall i | 0 <= i < |t| :: NumberUnit(t[i])
  }

  /** A finite number, known by the text that the language prints for it. */
  type NumberText = t: Text | IsNumberText(t) witness [0x30]

  datatype Json =
    | Null
    | Bool(value: bool)
    | Number(text: NumberText)
    | String(chars: Text)
    | Array(items: Items)
    | Object(members: Members)

  datatype Items = NoItem | Item(head: Json, tail: Items)

  /** An object's own members in insertion order. */
  datatype Members = NoMember | Member(key: Text, value: Json, rest: Members)

  // ----- Keys -----

  predicate HasKey(ms: Members, key: Text) {
    ms.Member? && (ms.key == key || HasKey(ms.rest, key))
  }

  function Get(ms: Members, key: Text): (v: Json)
    requires HasKey(ms, key)
    ensures v < ms
  {
    if ms.key == key then ms.value else Get(ms.rest, key)
  }

  function KeysOf(ms: Members): (keys: seq<Text>)
    ensures forall k :: k in keys <==> HasKey(ms, k)
  {
    if ms.NoMember? then [] else [ms.key] + KeysOf(ms.rest)
  }

  /** Objects hold each key once, at every depth. */
  predicate Distinct(v: Json) {
    match v
    case Array(items) => DistinctItems(items)
    case Object(ms) => DistinctMembers(ms)
    case _ => true
  }

  predicate DistinctItems(items: Items) {
    items.Item? ==> Distinct(items.head) && DistinctItems(items.tail)
  }

  predicate DistinctMembers(ms: Members) {
    ms.Member? ==> !HasKey(ms.rest, ms.key) && Distinct(ms.value) && DistinctMembers(ms.rest)
  }

  /** The order of `Array.prototype.sort` on strings: by code units. */
  predicate Less(a: Text, b: Text) {
    b != [] && (a == [] || a[0] < b[0] || (a[0] == b[0] && Less(a[1..], b[1..])))
  }

  lemma {:induction false} LessIsTotal(a: Text, b: Text)
    ensures a == b || Less(a, b) || Less(b, a)
    ensures !(Less(a, b) && Less(b, a)) && !Less(a, a)
  {
    if a != [] && b != [] && a[0] == b[0] {
      LessIsTotal(a[1..], b[1..]);
    }
    if a != [] {
      LessIsTotal(a[1..], a[1..]);
    }
  }

  lemma {:induction false} LessIsTransitive(a: Text, b: Text, c: Text)
    requires Less(a, b) && Less(b, c)
    ensures Less(a, c)
  {
    if a != [] && a[0] == b[0] && b[0] == c[0] {
      LessIsTransitive(a[1..], b[1..], c[1..]);
    }
  }

  /** After a common beginning `a` ends first or goes on with the smaller code unit. */
  ghost predicate StandsBefore(a: Text, b: Text) {
    exists n: nat :: n <= |a| && n <= |b| && a[..n] == b[..n] && (if n == |a| then n < |b| else n < |b| && a[n] < b[n])
  }

  lemma SameStart(a: Text, b: Text, n: nat)
    requires n <= |a| && n <= |b| && a[..n] == b[..n]
    ensures n > 0 ==> a[0] == b[0] && a[1..][..n - 1] == b[1..][..n - 1]
  {
    if n > 0 {
      assert a[0] == a[..n][0] && b[0] == b[..n][0];
      assert a[1..][..n - 1] == a[..n][1..] && b[1..][..n - 1] == b[..n][1..];
    }
  }

  lemma {:induction false} LessMeans(a: Text, b: Text)
    ensures Less(a, b) <==> StandsBefore(a, b)
  {
    if a != [] && b != [] && a[0] == b[0] {
      LessMeans(a[1..], b[1..]);
      if Less(a, b) {
        var n: nat :| n <= |a[1..]| && n <= |b[1..]| && a[1..][..n] == b[1..][..n]
          && (if n == |a[1..]| then n < |b[1..]| else n < |b[1..]| && a[1..][n] < b[1..][n]);
        assert a[..n + 1] == [a[0]] + a[1..][..n] && b[..n + 1] == [b[0]] + b[1..][..n];
      }
    } else if Less(a, b) {
      assert a[..0] == b[..0];
    }
    if StandsBefore(a, b) {
      var n: nat :| n <= |a| && n <= |b| && a[..n] == b[..n] && (if n == |a| then n < |b| else n < |b| && a[n] < b[n]);
      SameStart(a, b, n);
    }
  }

  function InsertKey(key: Text, keys: seq<Text>): (r: seq<Text>)
    ensures forall k :: k in r <==> k == key || k in keys
  {
    if keys == [] then [key]
    else if Less(keys[0], key) then [keys[0]] + InsertKey(key, keys[1..])
    else [key] + keys
  }

  function SortKeys(keys: seq<Text>): (r: seq<Text>)
    ensures forall k :: k in r <==> k in keys
  {
    if keys == [] then [] else InsertKey(keys[0], SortKeys(keys[1..]))
  }

  // ----- Printing -----

  function HexDigit(d: Unit): Unit
    requires d < 16
  {
    if d < 10 then 0x30 + d else 0x61 + (d - 10)
  }

  function UnicodeEscape(u: Unit): Text {
    [BACKSLASH, 0x75, HexDigit(u / 0x1000), HexDigit(u / 0x100 % 16), HexDigit(u / 16 % 16), HexDigit(u % 16)]
  }

  predicate HighSurrogate(u: Unit) { 0xD800 <= u < 0xDC00 }

  predicate LowSurrogate(u: Unit) { 0xDC00 <= u < 0xE000 }

  /** How `JSON.stringify` writes one code unit that is not part of a surrogate pair. */
  function Escape(u: Unit): Text {
    if u == QUOTE then [BACKSLASH, QUOTE]
    else if u == BACKSLASH then [BACKSLASH, BACKSLASH]
    else if u == 0x08 then [BACKSLASH, 0x62]
    else if u == 0x09 then [BACKSLASH, 0x74]
    else if u == 0x0A then [BACKSLASH, 0x6E]
    else if u == 0x0C then [BACKSLASH, 0x66]
    else if u == 0x0D then [BACKSLASH, 0x72]
    else if u < 0x20 || HighSurrogate(u) || LowSurrogate(u) then UnicodeEscape(u)
    else [u]
  }

  function EscapeAll(s: Text): Text {
    if s == [] then []
    else if |s| >= 2 && HighSurrogate(s[0]) && LowSurrogate(s[1]) then [s[0], s[1]] + EscapeAll(s[2..])
    else Escape(s[0]) + EscapeAll(s[1..])
  }

  function Quote(s: Text): Text {
    [QUOTE] + EscapeAll(s) + [QUOTE]
  }

  /** The canonical printer, as the client defines it: keys sorted, values looked up by key. */
  function Canonical(v: Json): Text
    decreases v, 0
  {
    match v
    case Null => NULL_TEXT
    case Bool(b) => if b then TRUE_TEXT else FALSE_TEXT
    case Number(text) => text
    case String(chars) => Quote(chars)
    case Array(items) => [OPEN_ARRAY] + CanonicalItems(items) + [CLOSE_ARRAY]
    case Object(ms) => [OPEN_OBJECT] + CanonicalEntries(ms, SortKeys(KeysOf(ms))) + [CLOSE_OBJECT]
  }

  function CanonicalItems(items: Items): Text {
    if items.NoItem? then []
    else if items.tail.NoItem? then Canonical(items.head)
    else Canonical(items.head) + [COMMA] + CanonicalItems(items.tail)
  }

  function CanonicalEntries(ms: Members, keys: seq<Text>): Text
    requires forall k | k in keys :: HasKey(ms, k)
    decreases ms, |keys|
  {
    if keys == [] then []
    else
      var entry := Quote(keys[0]) + [COLON] + Canonical(Get(ms, keys[0]));
      if |keys| == 1 then entry else entry + [COMMA] + CanonicalEntries(ms, keys[1..])
  }

  // ----- The key-sorted value and its plain printing -----

  function InsertMember(key: Text, value: Json, ms: Members): Members {
    if ms.Member? && Less(ms.key, key) then Member(ms.key, ms.value, InsertMember(key, value, ms.rest))
    else Member(key, value, ms)
  }

  function KeySorted(v: Json): Json {
    match v
    case Array(items) => Array(KeySortedItems(items))
    case Object(ms) => Object(KeySortedMembers(ms))
    case _ => v
  }

  function KeySortedItems(items: Items): Items {
    if items.NoItem? then NoItem else Item(KeySorted(items.head), KeySortedItems(items.tail))
  }

  function KeySortedMembers(ms: Members): Members {
    if ms.NoMember? then NoMember else InsertMember(ms.key, KeySorted(ms.value), KeySortedMembers(ms.rest))
  }

  function Show(v: Json): Text {
    match v
    case Null => NULL_TEXT
    case Bool(b) => if b then TRUE_TEXT else FALSE_TEXT
    case Number(text) => text
    case String(chars) => Quote(chars)
    case Array(items) => [OPEN_ARRAY] + ShowItems(items) + [CLOSE_ARRAY]
    case Object(ms) => [OPEN_OBJECT] + ShowMembers(ms) + [CLOSE_OBJECT]
  }

  function ShowItems(items: Items): Text {
    if items.NoItem? then []
    else if items.tail.NoItem? then Show(items.head)
    else Show(items.head) + [COMMA] + ShowItems(items.tail)
  }

  function ShowMembers(ms: Members): Text {
    if ms.NoMember? then []
    else
      var entry := Quote(ms.key) + [COLON] + Show(ms.value);
      if ms.rest.NoMember? then entry else entry + [COMMA] + ShowMembers(ms.rest)
  }

  lemma {:induction false} InsertedKeys(key: Text, value: Json, ms: Members)
    ensures KeysOf(InsertMember(key, value, ms)) == InsertKey(key, KeysOf(ms))
    ensures forall k :: HasKey(InsertMember(key, value, ms), k) <==> k == key || HasKey(ms, k)
  {
    if ms.Member? && Less(ms.key, key) {
      InsertedKeys(key, value, ms.rest);
      assert KeysOf(ms)[1..] == KeysOf(ms.rest);
    }
  }

  lemma {:induction false} InsertedValue(key: Text, value: Json, ms: Members, k: Text)
    requires !HasKey(ms, key) && (k == key || HasKey(ms, k))
    ensures HasKey(InsertMember(key, value, ms), k)
    ensures Get(InsertMember(key, value, ms), k) == if k == key then value else Get(ms, k)
  {
    InsertedKeys(key, value, ms);
    if ms.Member? && Less(ms.key, key) && ms.key != k {
      InsertedValue(key, value, ms.rest, k);
    }
  }

  /** Sorting keeps the keys and sorts the value under each. */
  lemma {:induction false} SortedLookup(ms: Members, k: Text)
    requires DistinctMembers(ms)
    ensures KeysOf(KeySortedMembers(ms)) == SortKeys(KeysOf(ms))
    ensures HasKey(KeySortedMembers(ms), k) <==> HasKey(ms, k)
    ensures HasKey(ms, k) ==> Get(KeySortedMembers(ms), k) == KeySorted(Get(ms, k))
  {
    if ms.Member? {
      SortedLookup(ms.rest, k);
      SortedLookup(ms.rest, ms.key);
      InsertedKeys(ms.key, KeySorted(ms.value), KeySortedMembers(ms.rest));
      assert KeysOf(ms)[1..] == KeysOf(ms.rest);
      if HasKey(ms, k) {
        InsertedValue(ms.key, KeySorted(ms.value), KeySortedMembers(ms.rest), k);
      }
    }
  }

  /** Strictly ascending keys. */
  ghost predicate Ordered(ms: Members) {
    ms.Member? ==> Ordered(ms.rest) && forall k | HasKey(ms.rest, k) :: Less(ms.key, k)
  }

  lemma {:induction false} InsertKeepsOrder(key: Text, value: Json, ms: Members)
    requires Ordered(ms) && !HasKey(ms, key)
    ensures Ordered(InsertMember(key, value, ms))
  {
    if ms.Member? {
      InsertedKeys(key, value, ms.rest);
      LessIsTotal(ms.key, key);
      if Less(ms.key, key) {
        InsertKeepsOrder(key, value, ms.rest);
      } else {
        forall k | HasKey(ms, k) ensures Less(key, k) {
          if k != ms.key {
            LessIsTransitive(key, ms.key, k);
          }
        }
      }
    }
  }

  lemma {:induction false} SortingOrders(ms: Members)
    requires DistinctMembers(ms)
    ensures Ordered(KeySortedMembers(ms))
  {
    if ms.Member? {
      SortingOrders(ms.rest);
      SortedLookup(ms.rest, ms.key);
      InsertKeepsOrder(ms.key, KeySorted(ms.value), KeySortedMembers(ms.rest));
    }
  }

  lemma HeadIsNotRepeated(ms: Members)
    requires Ordered(ms) && ms.Member?
    ensures !HasKey(ms.rest, ms.key)
  {
    LessIsTotal(ms.key, ms.key);
  }

  /** In every object, at every depth, each key stands before the keys of the members that follow. */
  ghost predicate KeysAscend(v: Json) {
    match v
    case Array(items) => ItemsAscend(items)
    case Object(ms) => MembersAscend(ms)
    case _ => true
  }

  ghost predicate ItemsAscend(items: Items) {
    items.Item? ==> KeysAscend(items.head) && ItemsAscend(items.tail)
  }

  ghost predicate MembersAscend(ms: Members) {
    ms.Member? ==>
      KeysAscend(ms.value) && MembersAscend(ms.rest) && forall k | HasKey(ms.rest, k) :: StandsBefore(ms.key, k)
  }

  lemma {:induction false} SortedKeysAscend(v: Json)
    requires Distinct(v)
    ensures KeysAscend(KeySorted(v))
  {
    match v
    case Array(items) => SortedItemsAscend(items);
    case Object(ms) => SortedMembersAscend(ms);
    case _ =>
  }

  lemma {:induction false} SortedItemsAscend(items: Items)
    requires DistinctItems(items)
    ensures ItemsAscend(KeySortedItems(items))
  {
    if items.Item? {
      SortedKeysAscend(items.head);
      SortedItemsAscend(items.tail);
    }
  }

  lemma {:induction false} SortedMembersAscend(ms: Members)
    requires DistinctMembers(ms)
    ensures MembersAscend(KeySortedMembers(ms))
  {
    if ms.Member? {
      SortedKeysAscend(ms.value);
      SortedMembersAscend(ms.rest);
      SortingOrders(ms);
      InsertAscends(ms.key, KeySorted(ms.value), KeySortedMembers(ms.rest));
    }
  }

  lemma {:induction false} InsertAscends(key: Text, value: Json, ms: Members)
    requires KeysAscend(value) && MembersAscend(ms) && Ordered(InsertMember(key, value, ms))
    ensures MembersAscend(InsertMember(key, value, ms))
  {
    var inserted := InsertMember(key, value, ms);
    if ms.Member? && Less(ms.key, key) {
      InsertAscends(key, value, ms.rest);
    }
    forall k | HasKey(inserted.rest, k) ensures StandsBefore(inserted.key, k) {
      LessMeans(inserted.key, k);
    }
  }

  // ----- The printer prints the key-sorted value -----

  lemma {:induction false} CanonicalSortsKeys(v: Json)
    requires Distinct(v)
    ensures Canonical(v) == Show(KeySorted(v))
    decreases v, 0
  {
    match v
    case Array(items) => CanonicalSortsItems(items);
    case Object(ms) =>
      forall k | HasKey(ms, k) ensures HasKey(KeySortedMembers(ms), k) && Get(KeySortedMembers(ms), k) == KeySorted(Get(ms, k)) {
        SortedLookup(ms, k);
      }
      SortedLookup(ms, []);
      forall k | HasKey(KeySortedMembers(ms), k) ensures HasKey(ms, k) {
        SortedLookup(ms, k);
      }
      SortingOrders(ms);
      CanonicalSortsEntries(ms, KeySortedMembers(ms));
    case _ =>
  }

  lemma {:induction false} CanonicalSortsItems(items: Items)
    requires DistinctItems(items)
    ensures CanonicalItems(items) == ShowItems(KeySortedItems(items))
  {
    if items.Item? {
      CanonicalSortsKeys(items.head);
      CanonicalSortsItems(items.tail);
    }
  }

  lemma {:induction false} DistinctUnderKey(ms: Members, k: Text)
    requires DistinctMembers(ms) && HasKey(ms, k)
    ensures Distinct(Get(ms, k))
  {
    if ms.key != k {
      DistinctUnderKey(ms.rest, k);
    }
  }

  /** Looking up the keys of `sorted` one by one in `ms` prints `sorted`. */
  lemma {:induction false} CanonicalSortsEntries(ms: Members, sorted: Members)
    requires DistinctMembers(ms) && Ordered(sorted)
    requires forall k | HasKey(sorted, k) :: HasKey(ms, k) && Get(sorted, k) == KeySorted(Get(ms, k))
    ensures CanonicalEntries(ms, KeysOf(sorted)) == ShowMembers(sorted)
    decreases ms, 0, sorted
  {
    if sorted.Member? {
      var keys := KeysOf(sorted);
      assert keys[1..] == KeysOf(sorted.rest);
      assert HasKey(sorted, sorted.key);
      DistinctUnderKey(ms, sorted.key);
      CanonicalSortsKeys(Get(ms, sorted.key));
      HeadIsNotRepeated(sorted);
      CanonicalSortsEntries(ms, sorted.rest);
    }
  }

  // ----- Equality up to key order -----

  /** Two values are the same when they differ in nothing but the order of object keys. */
  ghost predicate Same(a: Json, b: Json)
    decreases a
  {
    match a
    case Array(items) => b.Array? && SameItems(items, b.items)
    case Object(ms) =>
      && b.Object? && (forall k :: HasKey(ms, k) <==> HasKey(b.members, k))
      && forall k | HasKey(ms, k) :: Same(Get(ms, k), Get(b.members, k))
    case _ => a == b
  }

  ghost predicate SameItems(a: Items, b: Items)
    decreases a
  {
    if a.NoItem? then b.NoItem? else b.Item? && Same(a.head, b.head) && SameItems(a.tail, b.tail)
  }

  /** Ascending members are determined by what they hold under each key. */
  lemma {:induction false} OrderedIsUnique(a: Members, b: Members)
    requires Ordered(a) && Ordered(b)
    requires forall k :: HasKey(a, k) <==> HasKey(b, k)
    requires forall k | HasKey(a, k) :: Get(a, k) == Get(b, k)
    ensures a == b
  {
    if a.Member? {
      assert HasKey(a, a.key);
      assert b.Member? && HasKey(b, b.key);
      LessIsTotal(a.key, b.key);
      assert a.key == b.key;
      assert a.value == Get(a, a.key) == Get(b, a.key) == b.value;
      HeadIsNotRepeated(a);
      HeadIsNotRepeated(b);
      forall k ensures HasKey(a.rest, k) <==> HasKey(b.rest, k) {
        assert k != a.key ==> (HasKey(a, k) <==> HasKey(b, k));
      }
      forall k | HasKey(a.rest, k) ensures Get(a.rest, k) == Get(b.rest, k) {
        assert HasKey(a, k) && Get(a, k) == Get(b, k);
      }
      OrderedIsUnique(a.rest, b.rest);
    } else {
      assert b.Member? ==> HasKey(b, b.key);
    }
  }

  lemma {:induction false} SameMeansSortedAlike(a: Json, b: Json)
    requires Distinct(a) && Distinct(b)
    ensures Same(a, b) <==> KeySorted(a) == KeySorted(b)
    decreases a
  {
    if a.Array? && b.Array? {
      SameItemsMeansSortedAlike(a.items, b.items);
    } else if a.Object? && b.Object? {
      SameMembersMeansSortedAlike(a.members, b.members);
    }
  }

  lemma {:induction false} SameItemsMeansSortedAlike(a: Items, b: Items)
    requires DistinctItems(a) && DistinctItems(b)
    ensures SameItems(a, b) <==> KeySortedItems(a) == KeySortedItems(b)
    decreases a
  {
    if a.Item? && b.Item? {
      SameMeansSortedAlike(a.head, b.head);
      SameItemsMeansSortedAlike(a.tail, b.tail);
    }
  }

  lemma {:induction false} SameMembersMeansSortedAlike(a: Members, b: Members)
    requires DistinctMembers(a) && DistinctMembers(b)
    ensures Same(Object(a), Object(b)) <==> KeySortedMembers(a) == KeySortedMembers(b)
    decreases a
  {
    var s, t := KeySortedMembers(a), KeySortedMembers(b);
    SortingOrders(a);
    SortingOrders(b);
    forall k
      ensures (HasKey(s, k) <==> HasKey(a, k)) && (HasKey(t, k) <==> HasKey(b, k))
      ensures HasKey(a, k) ==> Get(s, k) == KeySorted(Get(a, k))
      ensures HasKey(b, k) ==> Get(t, k) == KeySorted(Get(b, k))
    {
      SortedLookup(a, k);
      SortedLookup(b, k);
    }
    forall k | HasKey(a, k) && HasKey(b, k)
      ensures Same(Get(a, k), Get(b, k)) <==> Get(s, k) == Get(t, k)
    {
      DistinctUnderKey(a, k);
      DistinctUnderKey(b, k);
      SameMeansSortedAlike(Get(a, k), Get(b, k));
    }
    if Same(Object(a), Object(b)) {
      OrderedIsUnique(s, t);
    }
  }
}

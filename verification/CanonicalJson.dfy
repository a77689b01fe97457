/** `canonicalJson` and `receiverBodyMatches` (frontend/src/components/LiveNetworkTrace.tsx) over
    the JSON values of sections 3 to 7 of RFC 8259. Text is UTF-16, as in ECMAScript. */
module CanonicalJson {
  import opened Schema

  type Unit = u: int | 0 <= u < 0x1_0000
  type Text = seq<Unit>

  datatype Entry = Entry(key: Text, value: Json)

  /** A finite number is represented by its literal, which `JSON.stringify` prints injectively. */
  datatype Json =
    | Null | Bool(b: bool) | Number(literal: Text) | Str(s: Text)
    | Arr(items: seq<Json>) | Obj(entries: seq<Entry>)

  // ----- strings -----

  predicate IsLead(u: Unit) { 0xD800 <= u <= 0xDBFF }
  predicate IsTrail(u: Unit) { 0xDC00 <= u <= 0xDFFF }

  function HexDigit(n: int): Unit
    requires 0 <= n < 16
  {
    if n < 10 then 48 + n else 87 + n
  }

  function UnicodeEscape(u: Unit): Text {
    [92, 117, HexDigit(u / 4096), HexDigit(u / 256 % 16), HexDigit(u / 16 % 16), HexDigit(u % 16)]
  }

  /** The letter of a two-unit escape, or 0 when the unit has none. */
  function ShortEscape(u: Unit): Unit {
    if u == 8 then 98 else if u == 9 then 116 else if u == 10 then 110
    else if u == 12 then 102 else if u == 13 then 114
    else if u == 34 then 34 else if u == 92 then 92 else 0
  }

  predicate StartsPair(s: Text) { |s| >= 2 && IsLead(s[0]) && IsTrail(s[1]) }

  /** What `JSON.stringify` prints for the first character of a non-empty string. */
  function Head(s: Text): Text
    requires s != []
  {
    if StartsPair(s) then s[..2]
    else if ShortEscape(s[0]) != 0 then [92, ShortEscape(s[0])]
    else if s[0] < 32 || IsLead(s[0]) || IsTrail(s[0]) then UnicodeEscape(s[0])
    else s[..1]
  }

  function Rest(s: Text): Text
    requires s != []
  {
    if StartsPair(s) then s[2..] else s[1..]
  }

  function Escape(s: Text): Text {
    if s == [] then [] else Head(s) + Escape(Rest(s))
  }

  function Quote(s: Text): Text { [34] + Escape(s) + [34] }

  function HexValue(u: Unit): int { if u >= 97 then u - 87 else u - 48 }

  function LetterValue(u: Unit): int {
    if u == 98 then 8 else if u == 116 then 9 else if u == 110 then 10
    else if u == 102 then 12 else if u == 114 then 13 else u
  }

  /** Read one printed character back: the units it stands for and the length it took. */
  function ReadHead(t: Text): (seq<int>, nat)
    requires |t| >= 7
  {
    if t[0] == 92 then
      if t[1] == 117 then
        ([4096 * HexValue(t[2]) + 256 * HexValue(t[3]) + 16 * HexValue(t[4]) + HexValue(t[5])], 6)
      else ([LetterValue(t[1])], 2)
    else if IsLead(t[0]) then ([t[0], t[1]], 2)
    else ([t[0]], 1)
  }

  lemma HexReadsBack(u: Unit)
    ensures var t := UnicodeEscape(u);
            4096 * HexValue(t[2]) + 256 * HexValue(t[3]) + 16 * HexValue(t[4]) + HexValue(t[5]) == u
  {
    DigitReadsBack(u / 4096);
    DigitReadsBack(u / 256 % 16);
    DigitReadsBack(u / 16 % 16);
    DigitReadsBack(u % 16);
    hide HexValue, HexDigit;
    assert u / 16 / 16 == u / 256 && u / 256 / 16 == u / 4096;
  }

  lemma DigitReadsBack(n: int)
    requires 0 <= n < 16
    ensures HexValue(HexDigit(n)) == n
  {
  }

  lemma HeadReadsBack(s: Text, t: Text)
    requires s != [] && |Head(s) + t| >= 7
    ensures ReadHead(Head(s) + t).1 == |Head(s)|
    ensures ReadHead(Head(s) + t).0 == s[..|s| - |Rest(s)|]
    ensures Head(s)[0] != 34
  {
    var p := Head(s) + t;
    if !StartsPair(s) && ShortEscape(s[0]) == 0
       && (s[0] < 32 || IsLead(s[0]) || IsTrail(s[0])) {
      HexReadsBack(s[0]);
      assert p[..6] == UnicodeEscape(s[0]);
      assert p[2] == UnicodeEscape(s[0])[2] && p[3] == UnicodeEscape(s[0])[3];
      assert p[4] == UnicodeEscape(s[0])[4] && p[5] == UnicodeEscape(s[0])[5];
    }
  }

  const PADDING: Text := [0, 0, 0, 0, 0, 0, 0]

  /** Two texts that begin with a printed character agree on it and on what follows. */
  lemma SameHead(s1: Text, s2: Text, u1: Text, u2: Text)
    requires s1 != [] && s2 != [] && Head(s1) + u1 == Head(s2) + u2
    ensures s1[..|s1| - |Rest(s1)|] == s2[..|s2| - |Rest(s2)|] && u1 == u2
  {
    var t := Head(s1) + u1;
    assert t + PADDING == Head(s1) + (u1 + PADDING);
    assert t + PADDING == Head(s2) + (u2 + PADDING);
    HeadReadsBack(s1, u1 + PADDING);
    HeadReadsBack(s2, u2 + PADDING);
    assert u1 == t[|Head(s1)|..] && u2 == t[|Head(s2)|..];
  }

  /** A printed character never looks like a closing quote. */
  lemma HeadIsNoQuote(s: Text, u: Text, r: Text)
    requires s != []
    ensures Head(s) + u != [34] + r
  {
    HeadReadsBack(s, u + PADDING);
    assert (Head(s) + u)[0] == Head(s)[0];
  }

  /** A quoted string can be read back from any text it begins: printing is injective, and no
      quoted string is a proper prefix of another. */
  lemma {:induction false} EscapeIsInjective(s1: Text, s2: Text, r1: Text, r2: Text)
    requires Escape(s1) + [34] + r1 == Escape(s2) + [34] + r2
    ensures s1 == s2 && r1 == r2
    decreases |s1|
  {
    hide Head, Rest;
    var t1, t2 := Escape(s1) + [34] + r1, Escape(s2) + [34] + r2;
    SplitEscape(s1, r1);
    SplitEscape(s2, r2);
    if s1 == [] && s2 == [] {
      assert r1 == t1[1..] && r2 == t2[1..];
    } else if s1 == [] {
      HeadIsNoQuote(s2, Escape(Rest(s2)) + [34] + r2, r1);
    } else if s2 == [] {
      HeadIsNoQuote(s1, Escape(Rest(s1)) + [34] + r1, r2);
    } else {
      SameHead(s1, s2, Escape(Rest(s1)) + [34] + r1, Escape(Rest(s2)) + [34] + r2);
      RestIsSuffix(s1);
      RestIsSuffix(s2);
      EscapeIsInjective(Rest(s1), Rest(s2), r1, r2);
    }
  }

  lemma SplitEscape(s: Text, r: Text)
    ensures s == [] ==> Escape(s) + [34] + r == [34] + r
    ensures s != [] ==> Escape(s) + [34] + r == Head(s) + (Escape(Rest(s)) + [34] + r)
  {
    hide Head, Rest;
  }

  lemma RestIsSuffix(s: Text)
    requires s != []
    ensures |Rest(s)| < |s| && s == s[..|s| - |Rest(s)|] + Rest(s)
  {
  }

  // ----- key order -----

  /** The order of strings by code unit. */
  predicate Less(a: Text, b: Text) {
    b != [] && (a == [] || a[0] < b[0] || (a[0] == b[0] && Less(a[1..], b[1..])))
  }

  lemma {:induction false} LessIsTotal(a: Text, b: Text)
    ensures Less(a, b) || Less(b, a) || a == b
  {
    if a != [] && b != [] && a[0] == b[0] {
      LessIsTotal(a[1..], b[1..]);
      assert a == [a[0]] + a[1..] && b == [b[0]] + b[1..];
    }
  }

  lemma {:induction false} LessIsStrict(a: Text, b: Text)
    ensures !(Less(a, b) && Less(b, a)) && !Less(a, a)
  {
    if a != [] {
      if b != [] { LessIsStrict(a[1..], b[1..]); } else { LessIsStrict(a[1..], a[1..]); }
    }
  }

  lemma {:induction false} LessIsTransitive(a: Text, b: Text, c: Text)
    requires Less(a, b) && Less(b, c)
    ensures Less(a, c)
  {
    if a != [] && a[0] == b[0] && b[0] == c[0] {
      LessIsTransitive(a[1..], b[1..], c[1..]);
    }
  }

  function Insert(e: Entry, sorted: seq<Entry>): (r: seq<Entry>)
    ensures multiset(r) == multiset{e} + multiset(sorted)
    ensures forall x :: x in r <==> x == e || x in sorted
  {
    if sorted == [] then [e]
    else if Less(sorted[0].key, e.key) then
      assert sorted == [sorted[0]] + sorted[1..];
      [sorted[0]] + Insert(e, sorted[1..])
    else [e] + sorted
  }

  /** The entries in key order (`Object.entries(...).sort(...)`). */
  function SortEntries(entries: seq<Entry>): (r: seq<Entry>)
    ensures multiset(r) == multiset(entries) && |r| == |entries|
    ensures forall x :: x in r <==> x in entries
  {
    if entries == [] then []
    else
      assert entries == [entries[0]] + entries[1..];
      var r := Insert(entries[0], SortEntries(entries[1..]));
      assert |multiset(r)| == |multiset(entries)|;
      r
  }

  predicate StrictlySorted(entries: seq<Entry>) {
    forall i, j | 0 <= i < j < |entries| :: Less(entries[i].key, entries[j].key)
  }

  predicate DistinctKeys(entries: seq<Entry>) {
    forall i, j | 0 <= i < j < |entries| :: entries[i].key != entries[j].key
  }

  lemma {:induction false} InsertKeepsSorted(e: Entry, sorted: seq<Entry>)
    requires StrictlySorted(sorted) && forall x | x in sorted :: x.key != e.key
    ensures StrictlySorted(Insert(e, sorted))
  {
    var r := Insert(e, sorted);
    if sorted != [] {
      if Less(sorted[0].key, e.key) {
        InsertKeepsSorted(e, sorted[1..]);
        forall j | 0 < j < |r| ensures Less(r[0].key, r[j].key) {
          assert r[j] == r[1..][j - 1] && r[j] in Insert(e, sorted[1..]);
        }
        assert r[1..] == Insert(e, sorted[1..]);
        forall i, j | 0 <= i < j < |r| ensures Less(r[i].key, r[j].key) {
          if i > 0 { assert r[i] == r[1..][i - 1] && r[j] == r[1..][j - 1]; }
        }
      } else {
        LessIsTotal(sorted[0].key, e.key);
        forall j | 0 < j < |r| ensures Less(r[0].key, r[j].key) {
          if j > 1 { LessIsTransitive(e.key, sorted[0].key, sorted[j - 1].key); }
        }
      }
    }
  }

  lemma {:induction false} SortIsSorted(entries: seq<Entry>)
    requires DistinctKeys(entries)
    ensures StrictlySorted(SortEntries(entries))
  {
    if entries != [] {
      SortIsSorted(entries[1..]);
      forall x | x in SortEntries(entries[1..]) ensures x.key != entries[0].key {
        assert x in entries[1..];
      }
      InsertKeepsSorted(entries[0], SortEntries(entries[1..]));
    }
  }

  // ----- the printer -----

  function Size(v: Json): (n: nat)
    ensures n >= 1
  {
    match v
    case Arr(items) => 1 + SizeItems(items)
    case Obj(entries) => 1 + SizeEntries(entries)
    case _ => 1
  }

  function SizeItems(items: seq<Json>): nat {
    if items == [] then 0 else Size(items[0]) + SizeItems(items[1..])
  }

  function SizeEntries(entries: seq<Entry>): nat {
    if entries == [] then 0 else Size(entries[0].value) + SizeEntries(entries[1..])
  }

  lemma {:induction false} InsertKeepsSize(e: Entry, sorted: seq<Entry>)
    ensures SizeEntries(Insert(e, sorted)) == Size(e.value) + SizeEntries(sorted)
  {
    if sorted != [] && Less(sorted[0].key, e.key) {
      InsertKeepsSize(e, sorted[1..]);
      assert Insert(e, sorted)[1..] == Insert(e, sorted[1..]);
    } else {
      assert Insert(e, sorted)[1..] == sorted;
    }
  }

  lemma {:induction false} SortKeepsSize(entries: seq<Entry>)
    ensures SizeEntries(SortEntries(entries)) == SizeEntries(entries)
  {
    if entries != [] {
      SortKeepsSize(entries[1..]);
      InsertKeepsSize(entries[0], SortEntries(entries[1..]));
    }
  }

  function Canonical(v: Json): Text
    decreases Size(v), 0
  {
    match v
    case Null => [110, 117, 108, 108]
    case Bool(b) => if b then [116, 114, 117, 101] else [102, 97, 108, 115, 101]
    case Number(literal) => literal
    case Str(s) => Quote(s)
    case Arr(items) => [91] + Items(items) + [93]
    case Obj(entries) =>
      SortKeepsSize(entries);
      [123] + Entries(SortEntries(entries)) + [125]
  }

  /** The printed items, separated by commas. */
  function Items(items: seq<Json>): Text
    decreases SizeItems(items), 1
  {
    if items == [] then []
    else if |items| == 1 then Canonical(items[0])
    else Canonical(items[0]) + [44] + Items(items[1..])
  }

  function EntryText(e: Entry): Text
    decreases Size(e.value), 1
  {
    Quote(e.key) + [58] + Canonical(e.value)
  }

  function Entries(entries: seq<Entry>): Text
    decreases SizeEntries(entries), 2
  {
    if entries == [] then []
    else if |entries| == 1 then EntryText(entries[0])
    else EntryText(entries[0]) + [44] + Entries(entries[1..])
  }

  // ----- JSON values and their equality -----

  predicate IsNumberUnit(u: Unit) {
    48 <= u <= 57 || u == 43 || u == 45 || u == 46 || u == 69 || u == 101
  }

  /** A finite JSON value: number literals are literals, and object keys are distinct. */
  predicate Valid(v: Json) {
    match v
    case Number(literal) =>
      && literal != [] && (48 <= literal[0] <= 57 || literal[0] == 45)
      && forall i | 0 <= i < |literal| :: IsNumberUnit(literal[i])
    case Arr(items) => forall i | 0 <= i < |items| :: Valid(items[i])
    case Obj(entries) =>
      DistinctKeys(entries) && forall i | 0 <= i < |entries| :: Valid(entries[i].value)
    case _ => true
  }

  /** Equality of JSON values, where the order of an object's keys does not matter. */
  predicate Same(a: Json, b: Json) {
    match (a, b)
    case (Arr(xs), Arr(ys)) =>
      |xs| == |ys| && forall i | 0 <= i < |xs| :: Same(xs[i], ys[i])
    case (Obj(xs), Obj(ys)) =>
      && (forall i | 0 <= i < |xs| :: Matches(xs[i], ys))
      && (forall j | 0 <= j < |ys| :: HasKey(xs, ys[j].key))
    case _ => a == b
  }

  /** Some entry has the key of x and an equal value. */
  predicate Matches(x: Entry, entries: seq<Entry>) {
    exists j :: 0 <= j < |entries| && entries[j].key == x.key && Same(x.value, entries[j].value)
  }

  predicate HasKey(entries: seq<Entry>, key: Text) {
    exists i :: 0 <= i < |entries| && entries[i].key == key
  }

  /** Entry by entry the same key and an equal value. */
  predicate Aligned(xs: seq<Entry>, ys: seq<Entry>) {
    |xs| == |ys|
    && forall i | 0 <= i < |xs| :: xs[i].key == ys[i].key && Same(xs[i].value, ys[i].value)
  }

  predicate ValidValues(entries: seq<Entry>) {
    forall i | 0 <= i < |entries| :: Valid(entries[i].value)
  }

  // ----- printing is injective up to key order -----

  /** After a complete value the text ends, or goes on with a comma or a closing bracket. */
  predicate Stops(t: Text) { t == [] || t[0] == 44 || t[0] == 93 || t[0] == 125 }

  function KindOf(u: Unit): int {
    if u == 110 then 0 else if u == 116 || u == 102 then 1 else if 48 <= u <= 57 || u == 45 then 2
    else if u == 34 then 3 else if u == 91 then 4 else if u == 123 then 5 else 6
  }

  function Kind(v: Json): int {
    match v
    case Null => 0
    case Bool(_) => 1
    case Number(_) => 2
    case Str(_) => 3
    case Arr(_) => 4
    case Obj(_) => 5
  }

  lemma {:induction false} FirstUnit(v: Json)
    requires Valid(v)
    ensures Canonical(v) != [] && KindOf(Canonical(v)[0]) == Kind(v)
  {
    hide Escape, Items, Entries, SortEntries;
  }

  lemma {:induction false} SameFirstSameKind(a: Json, b: Json, ra: Text, rb: Text)
    requires Valid(a) && Valid(b) && Canonical(a) + ra == Canonical(b) + rb
    ensures Kind(a) == Kind(b)
  {
    FirstUnit(a);
    FirstUnit(b);
    assert (Canonical(a) + ra)[0] == Canonical(a)[0];
    assert (Canonical(b) + rb)[0] == Canonical(b)[0];
    hide Canonical, Valid;
  }

  lemma UnitAfter(l1: Text, l2: Text, r1: Text, r2: Text)
    requires |l1| < |l2| && l1 + r1 == l2 + r2
    ensures r1 != [] && r1[0] == l2[|l1|]
  {
    var t := l1 + r1;
    assert t[|l1|] == l2[|l1|] && t[|l1|] == r1[0];
  }

  /** A number literal ends where its digits end. */
  lemma LiteralIsNoLonger(l1: Text, l2: Text, r1: Text, r2: Text)
    requires forall i | 0 <= i < |l2| :: IsNumberUnit(l2[i])
    requires Stops(r1) && l1 + r1 == l2 + r2
    ensures |l2| <= |l1|
  {
    if |l1| < |l2| { UnitAfter(l1, l2, r1, r2); }
  }

  lemma LiteralIsInjective(l1: Text, l2: Text, r1: Text, r2: Text)
    requires forall i | 0 <= i < |l1| :: IsNumberUnit(l1[i])
    requires forall i | 0 <= i < |l2| :: IsNumberUnit(l2[i])
    requires Stops(r1) && Stops(r2) && l1 + r1 == l2 + r2
    ensures l1 == l2 && r1 == r2
  {
    LiteralIsNoLonger(l1, l2, r1, r2);
    LiteralIsNoLonger(l2, l1, r2, r1);
    SplitsAlike(l1, l2, r1, r2);
  }

  lemma SplitsAlike(p1: Text, p2: Text, r1: Text, r2: Text)
    requires |p1| == |p2| && p1 + r1 == p2 + r2
    ensures p1 == p2 && r1 == r2
  {
    var t := p1 + r1;
    assert p1 == t[..|p1|] && p2 == (p2 + r2)[..|p1|];
    assert r1 == t[|p1|..] && r2 == (p2 + r2)[|p1|..];
  }

  /** The value is neither an array nor an object. */
  predicate IsLeaf(v: Json) { !v.Arr? && !v.Obj? }

  lemma LeafIsInjective(a: Json, b: Json, ra: Text, rb: Text)
    requires Valid(a) && Valid(b) && Stops(ra) && Stops(rb) && IsLeaf(a) && Kind(a) == Kind(b)
    requires Canonical(a) + ra == Canonical(b) + rb
    ensures a == b && ra == rb
  {
    hide Escape;
    var ta, tb := Canonical(a) + ra, Canonical(b) + rb;
    match a
    case Null => SplitsAlike(Canonical(a), Canonical(b), ra, rb);
    case Bool(_) =>
      assert ta[0] == Canonical(a)[0] && tb[0] == Canonical(b)[0];
      SplitsAlike(Canonical(a), Canonical(b), ra, rb);
    case Number(l) => LiteralIsInjective(l, b.literal, ra, rb);
    case Str(s) =>
      assert ta[1..] == Escape(s) + [34] + ra && tb[1..] == Escape(b.s) + [34] + rb;
      EscapeIsInjective(s, b.s, ra, rb);
  }

  lemma PrintedArray(xs: seq<Json>, r: Text)
    ensures (Canonical(Arr(xs)) + r)[1..] == Items(xs) + [93] + r
  {
    hide Items;
  }

  lemma PrintedObject(xs: seq<Entry>, r: Text)
    ensures (Canonical(Obj(xs)) + r)[1..] == Entries(SortEntries(xs)) + [125] + r
  {
    hide Entries, SortEntries;
  }

  lemma {:induction false} CanonicalIsInjective(a: Json, b: Json, ra: Text, rb: Text)
    requires Valid(a) && Valid(b) && Stops(ra) && Stops(rb)
    requires Canonical(a) + ra == Canonical(b) + rb
    ensures Same(a, b) && ra == rb
    decreases Size(a), 0
  {
    hide Canonical, Items, Entries, SortEntries, Stops, Matches, Aligned;
    SameFirstSameKind(a, b, ra, rb);
    match a
    case Arr(xs) =>
      PrintedArray(xs, ra);
      PrintedArray(b.items, rb);
      ItemsAreInjective(xs, b.items, ra, rb);
    case Obj(xs) =>
      PrintedObject(xs, ra);
      PrintedObject(b.entries, rb);
      SortKeepsSize(xs);
      ValidEntries(xs);
      ValidEntries(b.entries);
      EntriesAreInjective(SortEntries(xs), SortEntries(b.entries), ra, rb);
      MatchAfterSorting(xs, b.entries);
    case _ => LeafIsInjective(a, b, ra, rb);
  }

  lemma ValidEntries(entries: seq<Entry>)
    requires ValidValues(entries)
    ensures ValidValues(SortEntries(entries))
  {
    hide Valid, SortEntries;
    var sorted := SortEntries(entries);
    forall i | 0 <= i < |sorted| ensures Valid(sorted[i].value) {
      assert sorted[i] in entries;
    }
  }

  lemma {:induction false} MatchAfterSorting(xs: seq<Entry>, ys: seq<Entry>)
    requires Aligned(SortEntries(xs), SortEntries(ys))
    ensures forall i | 0 <= i < |xs| :: Matches(xs[i], ys)
    ensures forall j | 0 <= j < |ys| :: HasKey(xs, ys[j].key)
  {
    hide *;
    assert forall i | 0 <= i < |xs| :: Matches(xs[i], ys) by {
      forall i | 0 <= i < |xs| ensures Matches(xs[i], ys) { MatchesSorted(xs[i], xs, ys); }
    }
    assert forall j | 0 <= j < |ys| :: HasKey(xs, ys[j].key) by {
      forall j | 0 <= j < |ys| ensures HasKey(xs, ys[j].key) { KeySorted(ys[j], xs, ys); }
    }
  }

  lemma MatchesSorted(x: Entry, xs: seq<Entry>, ys: seq<Entry>)
    requires Aligned(SortEntries(xs), SortEntries(ys)) && x in xs
    ensures Matches(x, ys)
  {
    hide *;
    AlignedMatches(x, SortEntries(xs), SortEntries(ys));
    MatchesIn(x, SortEntries(ys), ys);
  }

  lemma KeySorted(y: Entry, xs: seq<Entry>, ys: seq<Entry>)
    requires Aligned(SortEntries(xs), SortEntries(ys)) && y in ys
    ensures HasKey(xs, y.key)
  {
    hide *;
    AlignedHasKey(y, SortEntries(xs), SortEntries(ys));
    HasKeyIn(y.key, SortEntries(xs), xs);
  }

  lemma AlignedMatches(x: Entry, sx: seq<Entry>, sy: seq<Entry>)
    requires Aligned(sx, sy) && x in sx
    ensures Matches(x, sy)
  {
    hide Same;
    var k :| 0 <= k < |sx| && sx[k] == x;
    assert sy[k].key == x.key;
  }

  lemma AlignedHasKey(y: Entry, sx: seq<Entry>, sy: seq<Entry>)
    requires Aligned(sx, sy) && y in sy
    ensures HasKey(sx, y.key)
  {
    hide Same;
    var k :| 0 <= k < |sy| && sy[k] == y;
    assert sx[k].key == y.key;
  }

  lemma HasKeyIn(key: Text, xs: seq<Entry>, zs: seq<Entry>)
    requires HasKey(xs, key) && forall x :: x in xs ==> x in zs
    ensures HasKey(zs, key)
  {
    var p :| 0 <= p < |xs| && xs[p].key == key;
    assert xs[p] in zs;
  }

  /** A printed item never looks like a closing bracket. */
  lemma ItemIsNoBracket(xs: seq<Json>, ra: Text, rb: Text)
    requires xs != [] && Valid(xs[0])
    ensures Items(xs) + [93] + ra != Items([]) + [93] + rb
  {
    hide Canonical, Valid;
    var u := AfterFirstItem(xs, ra);
    FirstUnit(xs[0]);
    assert (Canonical(xs[0]) + u)[0] == Canonical(xs[0])[0];
    assert (Items([]) + [93] + rb)[0] == 93;
  }

  lemma EntryIsNoBrace(xs: seq<Entry>, ra: Text, rb: Text)
    requires xs != []
    ensures Entries(xs) + [125] + ra != Entries([]) + [125] + rb
  {
    hide Canonical, Escape;
    var u := AfterFirstEntry(xs, ra);
    assert (Entries([]) + [125] + rb)[0] == 125;
  }

  lemma {:induction false} ItemsAreInjective(xs: seq<Json>, ys: seq<Json>, ra: Text, rb: Text)
    requires forall i | 0 <= i < |xs| :: Valid(xs[i])
    requires forall i | 0 <= i < |ys| :: Valid(ys[i])
    requires Items(xs) + [93] + ra == Items(ys) + [93] + rb
    ensures |xs| == |ys| && ra == rb && forall i | 0 <= i < |xs| :: Same(xs[i], ys[i])
    decreases SizeItems(xs), 1
  {
    hide Canonical, Valid, Same, Stops, Items;
    if ys == [] && xs != [] {
      ItemIsNoBracket(xs, ra, rb);
    } else if xs == [] && ys != [] {
      ItemIsNoBracket(ys, rb, ra);
    } else if xs == [] {
      SplitsAlike(Items(xs) + [93], Items(ys) + [93], ra, rb);
    } else {
      var ua := AfterFirstItem(xs, ra);
      var ub := AfterFirstItem(ys, rb);
      CanonicalIsInjective(xs[0], ys[0], ua, ub);
      SameContinuation(|xs|, |ys|, ua, ub);
      assert ra == rb || |xs| > 1 by { assert |xs| == 1 ==> ra == ua[1..] && rb == ub[1..]; }
      if |xs| > 1 {
        assert ua[1..] == Items(xs[1..]) + [93] + ra && ub[1..] == Items(ys[1..]) + [93] + rb;
        ItemsAreInjective(xs[1..], ys[1..], ra, rb);
        forall i | 0 <= i < |xs| ensures Same(xs[i], ys[i]) {
          if i > 0 { assert xs[i] == xs[1..][i - 1] && ys[i] == ys[1..][i - 1]; }
        }
      }
    }
  }

  /** A comma follows exactly when more elements follow. */
  lemma SameContinuation(m: nat, n: nat, u: Text, v: Text)
    requires u == v && u != [] && v != [] && (u[0] == 44 <==> m != 1) && (v[0] == 44 <==> n != 1)
    ensures m == 1 <==> n == 1
  {
  }

  /** What follows the first item of a printed array. */
  lemma {:induction false} AfterFirstItem(xs: seq<Json>, r: Text) returns (u: Text)
    requires xs != []
    ensures Items(xs) + [93] + r == Canonical(xs[0]) + u && Stops(u)
    ensures u != [] && (u[0] == 44 <==> |xs| != 1)
    ensures u == if |xs| == 1 then [93] + r else [44] + (Items(xs[1..]) + [93] + r)
  {
    hide Canonical;
    u := if |xs| == 1 then [93] + r else [44] + (Items(xs[1..]) + [93] + r);
  }

  /** What follows the first entry of a printed object. */
  lemma {:induction false} AfterFirstEntry(xs: seq<Entry>, r: Text) returns (u: Text)
    requires xs != []
    ensures Entries(xs) + [125] + r
            == [34] + (Escape(xs[0].key) + [34] + ([58] + (Canonical(xs[0].value) + u)))
    ensures Stops(u) && u != [] && (u[0] == 44 <==> |xs| != 1)
    ensures u == if |xs| == 1 then [125] + r else [44] + (Entries(xs[1..]) + [125] + r)
  {
    hide Canonical, Escape;
    u := if |xs| == 1 then [125] + r else [44] + (Entries(xs[1..]) + [125] + r);
    EntriesUnfold(xs, r);
    Reassociate(Escape(xs[0].key), Canonical(xs[0].value), u);
  }

  lemma {:induction false} EntriesUnfold(xs: seq<Entry>, r: Text)
    requires xs != []
    ensures Entries(xs) + [125] + r
            == EntryText(xs[0])
               + (if |xs| == 1 then [125] + r else [44] + (Entries(xs[1..]) + [125] + r))
  {
    hide EntryText;
  }

  lemma {:induction false} Reassociate(k: Text, c: Text, u: Text)
    ensures [34] + k + [34] + [58] + c + u == [34] + (k + [34] + ([58] + (c + u)))
  {
  }

  lemma {:induction false} EntriesAreInjective(xs: seq<Entry>, ys: seq<Entry>, ra: Text, rb: Text)
    requires ValidValues(xs) && ValidValues(ys)
    requires Entries(xs) + [125] + ra == Entries(ys) + [125] + rb
    ensures Aligned(xs, ys) && ra == rb
    decreases SizeEntries(xs), 2
  {
    hide Canonical, Valid, Same, Stops, Entries, Escape;
    if ys == [] && xs != [] {
      EntryIsNoBrace(xs, ra, rb);
    } else if xs == [] && ys != [] {
      EntryIsNoBrace(ys, rb, ra);
    } else if xs == [] {
      SplitsAlike(Entries(xs) + [125], Entries(ys) + [125], ra, rb);
    } else {
      var ua := AfterFirstEntry(xs, ra);
      var ub := AfterFirstEntry(ys, rb);
      KeyIsInjective(xs[0].key, ys[0].key, Canonical(xs[0].value) + ua, Canonical(ys[0].value) + ub);
      CanonicalIsInjective(xs[0].value, ys[0].value, ua, ub);
      SameContinuation(|xs|, |ys|, ua, ub);
      assert ra == rb || |xs| > 1 by { assert |xs| == 1 ==> ra == ua[1..] && rb == ub[1..]; }
      if |xs| > 1 {
        assert ua[1..] == Entries(xs[1..]) + [125] + ra;
        assert ub[1..] == Entries(ys[1..]) + [125] + rb;
        EntriesAreInjective(xs[1..], ys[1..], ra, rb);
        forall i | 0 <= i < |xs|
          ensures xs[i].key == ys[i].key && Same(xs[i].value, ys[i].value)
        {
          if i > 0 { assert xs[i] == xs[1..][i - 1] && ys[i] == ys[1..][i - 1]; }
        }
      }
    }
  }

  lemma KeyIsInjective(k1: Text, k2: Text, v1: Text, v2: Text)
    requires [34] + (Escape(k1) + [34] + ([58] + v1)) == [34] + (Escape(k2) + [34] + ([58] + v2))
    ensures k1 == k2 && v1 == v2
  {
    hide Escape;
    SplitsAlike([34], [34], Escape(k1) + [34] + ([58] + v1), Escape(k2) + [34] + ([58] + v2));
    EscapeIsInjective(k1, k2, [58] + v1, [58] + v2);
    SplitsAlike([58], [58], v1, v2);
  }

  // ----- equal values print the same -----

  lemma NoKeysNoEntries(xs: seq<Entry>, ys: seq<Entry>)
    requires forall j | 0 <= j < |ys| :: HasKey(xs, ys[j].key)
    ensures xs == [] ==> ys == []
  {
    assert ys != [] ==> HasKey(xs, ys[0].key);
  }

  lemma {:induction false} SortedKeysAgree(xs: seq<Entry>, ys: seq<Entry>)
    requires StrictlySorted(xs) && StrictlySorted(ys)
    requires forall i | 0 <= i < |xs| :: HasKey(ys, xs[i].key)
    requires forall j | 0 <= j < |ys| :: HasKey(xs, ys[j].key)
    ensures |xs| == |ys| && forall i | 0 <= i < |xs| :: xs[i].key == ys[i].key
    decreases |xs|
  {
    if xs == [] || ys == [] {
      NoKeysNoEntries(xs, ys);
      NoKeysNoEntries(ys, xs);
    } else {
      assert HasKey(ys, xs[0].key);
      var j :| 0 <= j < |ys| && ys[j].key == xs[0].key;
      assert HasKey(xs, ys[0].key);
      var i :| 0 <= i < |xs| && xs[i].key == ys[0].key;
      LessIsStrict(xs[0].key, ys[0].key);
      assert xs[0].key == ys[0].key;
      TailsHaveKeys(xs, ys);
      TailsHaveKeys(ys, xs);
      SortedKeysAgree(xs[1..], ys[1..]);
      forall k | 0 <= k < |xs| ensures xs[k].key == ys[k].key {
        if k > 0 { assert xs[k] == xs[1..][k - 1] && ys[k] == ys[1..][k - 1]; }
      }
    }
  }

  lemma TailsHaveKeys(xs: seq<Entry>, ys: seq<Entry>)
    requires xs != [] && ys != [] && xs[0].key == ys[0].key && StrictlySorted(xs)
    requires forall i | 0 <= i < |xs| :: HasKey(ys, xs[i].key)
    ensures forall i | 0 <= i < |xs[1..]| :: HasKey(ys[1..], xs[1..][i].key)
  {
    forall i | 0 <= i < |xs[1..]| ensures HasKey(ys[1..], xs[1..][i].key) {
      var key := xs[i + 1].key;
      assert HasKey(ys, key);
      var j :| 0 <= j < |ys| && ys[j].key == key;
      LessIsStrict(xs[0].key, key);
      assert j > 0 && ys[1..][j - 1] == ys[j];
    }
  }

  lemma {:induction false} SamePrintsAlike(a: Json, b: Json)
    requires Valid(a) && Valid(b) && Same(a, b)
    ensures Canonical(a) == Canonical(b)
    decreases Size(a), 0
  {
    hide Items, Entries, SortEntries, Matches, Aligned;
    match a
    case Arr(xs) => ItemsPrintAlike(xs, b.items);
    case Obj(xs) =>
      SortKeepsSize(xs);
      SortIsSorted(xs);
      SortIsSorted(b.entries);
      ValidEntries(xs);
      ValidEntries(b.entries);
      SortedMatch(xs, b.entries);
      EntriesPrintAlike(SortEntries(xs), SortEntries(b.entries));
    case _ =>
  }

  lemma SortedMatch(xs: seq<Entry>, ys: seq<Entry>)
    requires forall i | 0 <= i < |xs| :: Matches(xs[i], ys)
    requires forall j | 0 <= j < |ys| :: HasKey(xs, ys[j].key)
    requires StrictlySorted(SortEntries(xs)) && StrictlySorted(SortEntries(ys))
    ensures Aligned(SortEntries(xs), SortEntries(ys))
  {
    hide Same, SortEntries, Less;
    var sx, sy := SortEntries(xs), SortEntries(ys);
    forall i | 0 <= i < |sx| ensures Matches(sx[i], sy) && HasKey(sy, sx[i].key) {
      assert sx[i] in xs;
      var p :| 0 <= p < |xs| && xs[p] == sx[i];
      MatchesIn(xs[p], ys, sy);
    }
    forall j | 0 <= j < |sy| ensures HasKey(sx, sy[j].key) {
      assert sy[j] in ys;
      var q :| 0 <= q < |ys| && ys[q] == sy[j];
      HasKeyIn(ys[q].key, xs, sx);
    }
    SortedKeysAgree(sx, sy);
    forall i | 0 <= i < |sx| ensures Same(sx[i].value, sy[i].value) {
      assert Matches(sx[i], sy);
      var k :| 0 <= k < |sy| && sy[k].key == sx[i].key && Same(sx[i].value, sy[k].value);
      LessIsStrict(sy[i].key, sy[k].key);
      assert k == i;
    }
  }

  lemma MatchesIn(x: Entry, ys: seq<Entry>, zs: seq<Entry>)
    requires Matches(x, ys) && forall y :: y in ys ==> y in zs
    ensures Matches(x, zs) && HasKey(zs, x.key)
  {
    hide Same;
    var q :| 0 <= q < |ys| && ys[q].key == x.key && Same(x.value, ys[q].value);
    assert ys[q] in zs;
  }

  lemma {:induction false} ItemsPrintAlike(xs: seq<Json>, ys: seq<Json>)
    requires |xs| == |ys|
    requires forall i | 0 <= i < |xs| :: Valid(xs[i]) && Valid(ys[i]) && Same(xs[i], ys[i])
    ensures Items(xs) == Items(ys)
    decreases SizeItems(xs), 1
  {
    if xs != [] {
      SamePrintsAlike(xs[0], ys[0]);
      ItemsPrintAlike(xs[1..], ys[1..]);
    }
  }

  lemma {:induction false} EntriesPrintAlike(xs: seq<Entry>, ys: seq<Entry>)
    requires ValidValues(xs) && ValidValues(ys) && Aligned(xs, ys)
    ensures Entries(xs) == Entries(ys)
    decreases SizeEntries(xs), 2
  {
    if xs != [] {
      SamePrintsAlike(xs[0].value, ys[0].value);
      EntriesPrintAlike(xs[1..], ys[1..]);
    }
  }

  // ----- the comparison the interface makes -----

  /** `parsed` is what `JSON.parse` makes of the preview; absent when it throws. */
  predicate ReceiverBodyMatches(payload: Json, parsed: Option<Json>) {
    parsed.Some? && Canonical(payload) == Canonical(parsed.value)
  }

  /** Two finite values have the same canonical text exactly when they are equal up to the order of
      object keys; so the interface decides exactly that equality. */
  lemma CanonicalDecidesEquality(payload: Json, parsed: Option<Json>)
    requires Valid(payload) && (parsed.Some? ==> Valid(parsed.value))
    ensures ReceiverBodyMatches(payload, parsed)
            <==> parsed.Some? && Same(payload, parsed.value)
  {
    if parsed.Some? {
      if Same(payload, parsed.value) {
        SamePrintsAlike(payload, parsed.value);
      }
      if Canonical(payload) == Canonical(parsed.value) {
        assert Canonical(payload) + [] == Canonical(parsed.value) + [];
        CanonicalIsInjective(payload, parsed.value, [], []);
      }
    }
  }
}

/** The baggage header: printed by `FormatBaggage`, read back by `ParseBaggage`. */
module Baggage {
  import opened Options
  import opened PercentEncoding

  /** A baggage item as the activity holds it; key and value may be null. */
  datatype Item = Item(key: Option<string>, value: Option<string>)

  type Pair = (string, string)

  /** `char.IsWhiteSpace`. */
  predicate IsWhiteSpace(c: char) {
    '\t' <= c <= '\r' || c == ' ' || c == '\U{85}' || c == '\U{A0}' || c == '\U{1680}' || '\U{2000}' <= c <= '\U{200A}'
    || c == '\U{2028}' || c == '\U{2029}' || c == '\U{202F}' || c == '\U{205F}' || c == '\U{3000}'
  }

  predicate IsBlank(s: string) { forall c :: c in s ==> IsWhiteSpace(c) }

  predicate IsNullOrWhiteSpace(s: Option<string>) { s.None? || IsBlank(s.value) }

  // ----- Printing -----

  predicate IsKept(x: Item) { !IsNullOrWhiteSpace(x.key) && x.value.Some? }

  /** The items `FormatBaggage` keeps, as pairs, in order and with multiplicity. */
  function KeptPairs(xs: seq<Item>): (ps: seq<Pair>)
    ensures forall p :: p in ps ==> !IsBlank(p.0)
  {
    if xs == [] then []
    else (if IsKept(xs[0]) then [(xs[0].key.value, xs[0].value.value)] else []) + KeptPairs(xs[1..])
  }

  function FormatPair(p: Pair): string { EscapeDataString(p.0) + "=" + EscapeDataString(p.1) }

  /** `string.Join(',', items)`. */
  function FormatPairs(ps: seq<Pair>): string
    requires ps != []
  {
    if |ps| == 1 then FormatPair(ps[0]) else FormatPair(ps[0]) + "," + FormatPairs(ps[1..])
  }

  function FormatBaggage(xs: seq<Item>): Option<string> {
    var items := KeptPairs(xs);
    if items == [] then None else Some(FormatPairs(items))
  }

  // ----- Parsing -----

  function TrimStart(s: string): string { if s != "" && IsWhiteSpace(s[0]) then TrimStart(s[1..]) else s }

  function TrimEnd(s: string): string {
    if s != "" && IsWhiteSpace(s[|s| - 1]) then TrimEnd(s[..|s| - 1]) else s
  }

  function Trim(s: string): string { TrimEnd(TrimStart(s)) }

  function FirstIndex(s: string, c: char): (i: nat)
    ensures i <= |s| && (i < |s| ==> s[i] == c) && c !in s[..i]
  {
    if s == "" || s[0] == c then 0
    else
      var i := 1 + FirstIndex(s[1..], c);
      assert s[..i] == [s[0]] + s[1..][..i - 1];
      i
  }

  /** `Split(',')` with empty entries removed and entries trimmed. */
  function SplitItems(s: string): seq<string> {
    var i := FirstIndex(s, ',');
    var item := Trim(s[..i]);
    (if item == "" then [] else [item]) + (if i == |s| then [] else SplitItems(s[i + 1..]))
  }

  /** `Split('=', 2)` with trimmed entries. */
  function SplitKeyValue(item: string): seq<string> {
    var i := FirstIndex(item, '=');
    if i == |item| then [Trim(item)] else [Trim(item[..i]), Trim(item[i + 1..])]
  }

  function ParseItem(item: string): seq<Pair> {
    var keyValue := SplitKeyValue(item);
    if |keyValue| != 2 then []
    else
      var key, value := UnescapeDataString(keyValue[0]), UnescapeDataString(keyValue[1]);
      if IsBlank(key) then [] else [(key, value)]
  }

  function ParseItems(items: seq<string>, n: nat): seq<Pair>
    requires n <= |items|
  {
    if n == 0 then [] else ParseItems(items, n - 1) + ParseItem(items[n - 1])
  }

  function Parsed(baggage: Option<string>): seq<Pair> {
    if IsNullOrWhiteSpace(baggage) then [] else ParseItems(SplitItems(baggage.value), |SplitItems(baggage.value)|)
  }

  method ParseBaggage(baggage: Option<string>) returns (result: seq<Pair>)
    ensures result == Parsed(baggage)
  {
    if IsNullOrWhiteSpace(baggage) {
      return [];
    }
    result := [];
    var items := SplitItems(baggage.value);
    for i := 0 to |items|
      invariant result == ParseItems(items, i)
    {
      var keyValue := SplitKeyValue(items[i]);
      if |keyValue| != 2 {
        continue;
      }
      var key, value := UnescapeDataString(keyValue[0]), UnescapeDataString(keyValue[1]);
      if !IsBlank(key) {
        result := result + [(key, value)];
      }
    }
  }

  // ----- Round trip -----

  /** Characters that survive trimming and splitting: what escaping leaves, and the equals sign. */
  predicate IsItemChar(c: char) { IsEscapedChar(c) || c == '=' }

  lemma PlainIsUntrimmed(s: string)
    requires forall k :: 0 <= k < |s| ==> !IsWhiteSpace(s[k])
    ensures Trim(s) == s
  {
  }

  lemma {:induction false} FirstIndexIs(s: string, c: char, i: nat)
    requires i <= |s| && c !in s[..i] && (i < |s| ==> s[i] == c)
    ensures FirstIndex(s, c) == i
  {
    if i == 0 {
    } else {
      assert s[..i] == [s[0]] + s[1..][..i - 1];
      FirstIndexIs(s[1..], c, i - 1);
    }
  }

  lemma FormatPairIsPlain(p: Pair)
    ensures forall k :: 0 <= k < |FormatPair(p)| ==> IsItemChar(FormatPair(p)[k])
    ensures FormatPair(p) != ""
  {
    EscapedIsPlain(p.0);
    EscapedIsPlain(p.1);
  }

  /** One pair with a non-blank key is read back, whatever characters key and value contain. */
  lemma ItemRoundTrip(p: Pair)
    requires !IsBlank(p.0)
    ensures ParseItem(FormatPair(p)) == [p]
  {
    hide EscapeDataString, UnescapeDataString, FirstIndex, Trim, IsBlank;
    var k, v := EscapeDataString(p.0), EscapeDataString(p.1);
    EscapedIsPlain(p.0);
    EscapedIsPlain(p.1);
    var item := k + "=" + v;
    assert item[..|k|] == k && item[|k| + 1..] == v;
    FirstIndexIs(item, '=', |k|);
    PlainIsUntrimmed(k);
    PlainIsUntrimmed(v);
    EscapeRoundTrip(p.0);
    EscapeRoundTrip(p.1);
  }

  function Formatted(ps: seq<Pair>): seq<string> { seq(|ps|, i requires 0 <= i < |ps| => FormatPair(ps[i])) }

  lemma {:induction false} SplitUndoesJoin(ps: seq<Pair>)
    requires ps != []
    ensures SplitItems(FormatPairs(ps)) == Formatted(ps)
  {
    hide FormatPair, Trim, IsWhiteSpace;
    var item := FormatPair(ps[0]);
    FormatPairIsPlain(ps[0]);
    NoWhiteSpaceInItem(item);
    var s := FormatPairs(ps);
    assert s[..|item|] == item;
    FirstIndexIs(s, ',', |item|);
    if |ps| > 1 {
      assert s[|item| + 1..] == FormatPairs(ps[1..]);
      SplitUndoesJoin(ps[1..]);
      assert Formatted(ps) == [item] + Formatted(ps[1..]);
    } else {
      assert Formatted(ps) == [item];
    }
  }

  lemma NoWhiteSpaceInItem(item: string)
    requires forall k :: 0 <= k < |item| ==> IsItemChar(item[k])
    ensures Trim(item) == item && ',' !in item
  {
    PlainIsUntrimmed(item);
  }

  lemma {:induction false} ParseUndoesFormat(ps: seq<Pair>, n: nat)
    requires n <= |ps| && forall p :: p in ps ==> !IsBlank(p.0)
    ensures ParseItems(Formatted(ps), n) == ps[..n]
  {
    hide ParseItem, FormatPair, IsBlank;
    if n == 0 {
    } else {
      ParseUndoesFormat(ps, n - 1);
      ItemRoundTrip(ps[n - 1]);
      assert ps[..n] == ps[..n - 1] + [ps[n - 1]];
    }
  }

  lemma PairsRoundTrip(ps: seq<Pair>)
    requires ps != [] && forall p :: p in ps ==> !IsBlank(p.0)
    ensures Parsed(Some(FormatPairs(ps))) == ps
  {
    hide FormatPair, ParseItem, SplitItems, Trim;
    SplitUndoesJoin(ps);
    ParseUndoesFormat(ps, |ps|);
    assert ps[..|ps|] == ps;
    FormatIsNotBlank(ps);
  }

  lemma FormatIsNotBlank(ps: seq<Pair>)
    requires ps != []
    ensures !IsBlank(FormatPairs(ps))
  {
    var k := EscapeDataString(ps[0].0);
    assert FormatPairs(ps)[|k|] == '=';
    assert FormatPairs(ps)[|k|] in FormatPairs(ps);
  }

  /** The baggage round trip: parsing what was printed yields, in order and with multiplicity, exactly the
      items with a non-blank key and a non-null value. */
  lemma BaggageRoundTrip(xs: seq<Item>)
    ensures Parsed(FormatBaggage(xs)) == KeptPairs(xs)
  {
    if KeptPairs(xs) != [] {
      PairsRoundTrip(KeptPairs(xs));
    }
  }

  // ----- Headers of other services -----

  /** White space by number. */
  lemma WhiteSpaceIs(c: char)
    ensures var v := c as int;
            IsWhiteSpace(c) <==>
              9 <= v <= 13 || v in [0x20, 0x85, 0xA0, 0x1680, 0x2028, 0x2029, 0x202F, 0x205F, 0x3000]
              || 0x2000 <= v <= 0x200A
  {
  }

  predicate IsTrimmed(s: string) { s != "" ==> !IsWhiteSpace(s[0]) && !IsWhiteSpace(s[|s| - 1]) }

  lemma {:induction false} TrimStartIs(left: string, s: string)
    requires IsBlank(left) && (s != "" ==> !IsWhiteSpace(s[0]))
    ensures TrimStart(left + s) == s
  {
    hide IsWhiteSpace;
    if left == "" {
      assert left + s == s;
    } else {
      assert left[0] in left;
      assert (left + s)[1..] == left[1..] + s;
      TrimStartIs(left[1..], s);
    }
  }

  lemma {:induction false} TrimEndIs(s: string, right: string)
    requires IsBlank(right) && (s != "" ==> !IsWhiteSpace(s[|s| - 1]))
    ensures TrimEnd(s + right) == s
  {
    hide IsWhiteSpace;
    if right == "" {
      assert s + right == s;
    } else {
      var n := |right| - 1;
      assert right[n] in right;
      assert (s + right)[..|s + right| - 1] == s + right[..n];
      TrimEndIs(s, right[..n]);
    }
  }

  /** Trimming removes exactly the white space around a text. */
  lemma TrimIs(left: string, s: string, right: string)
    requires IsBlank(left) && IsBlank(right) && IsTrimmed(s)
    ensures Trim(left + s + right) == s
  {
    hide IsWhiteSpace, TrimStart, TrimEnd;
    if s == "" {
      assert left + s + right == left + right + "";
      assert forall c :: c in left + right ==> IsWhiteSpace(c);
      TrimStartIs(left + right, "");
      TrimEndIs("", "");
      assert "" + "" == "";
    } else {
      assert left + s + right == left + (s + right);
      TrimStartIs(left, s + right);
      TrimEndIs(s, right);
    }
  }

  /** An entry of a header as another service may write it: key and value with any white space around them, or a
      text without an equals sign. */
  datatype Entry =
    | Assignment(beforeKey: string, key: string, afterKey: string, beforeValue: string, value: string,
                 afterValue: string)
    | Junk(text: string)

  /** Key and value are trimmed and contain no separator; the value may contain equals signs. */
  predicate IsEntry(e: Entry) {
    match e
    case Assignment(a, key, b, c, value, d) =>
      && IsBlank(a) && IsBlank(b) && IsBlank(c) && IsBlank(d) && IsTrimmed(key) && IsTrimmed(value)
      && ',' !in key && ',' !in value && '=' !in key
    case Junk(text) => ',' !in text && '=' !in text
  }

  function EntryText(e: Entry): string {
    match e
    case Assignment(a, key, b, c, value, d) => a + key + b + "=" + (c + value + d)
    case Junk(text) => text
  }

  function EntriesText(es: seq<Entry>): string
    requires es != []
  {
    if |es| == 1 then EntryText(es[0]) else EntryText(es[0]) + "," + EntriesText(es[1..])
  }

  /** What an entry means: its unescaped key and value, unless the key is blank. */
  function EntryPairs(e: Entry): seq<Pair> {
    if e.Junk? || IsBlank(UnescapeDataString(e.key)) then []
    else [(UnescapeDataString(e.key), UnescapeDataString(e.value))]
  }

  function EntriesPairs(es: seq<Entry>): seq<Pair> {
    if es == [] then [] else EntryPairs(es[0]) + EntriesPairs(es[1..])
  }

  lemma {:induction false} TrimStartAround(x: string, y: string)
    ensures TrimStart(x + "=" + y) == TrimStart(x) + "=" + y
  {
    if x == "" || !IsWhiteSpace(x[0]) {
    } else {
      assert (x + "=" + y)[1..] == x[1..] + "=" + y;
      TrimStartAround(x[1..], y);
    }
  }

  lemma {:induction false} TrimEndAround(x: string, y: string)
    ensures TrimEnd(x + "=" + y) == x + "=" + TrimEnd(y)
  {
    var n := |y| - 1;
    if y == "" || !IsWhiteSpace(y[n]) {
    } else {
      assert (x + "=" + y)[..|x + "=" + y| - 1] == x + "=" + y[..n];
      TrimEndAround(x, y[..n]);
    }
  }

  /** Trimming one side of a padded text and then both gives the text. */
  lemma TrimPadded(left: string, s: string, right: string)
    requires IsBlank(left) && IsBlank(right) && IsTrimmed(s)
    ensures var x := TrimStart(left + s + right); Trim(x) == s && forall c :: c in x ==> c in s || IsWhiteSpace(c)
    ensures var y := TrimEnd(left + s + right); Trim(y) == s
  {
    hide IsWhiteSpace, TrimStart, TrimEnd, Trim;
    if s == "" {
      assert left + s + right == left + right + "" == "" + (left + right);
      assert forall c :: c in left + right ==> IsWhiteSpace(c);
      TrimStartIs(left + right, "");
      TrimEndIs("", left + right);
      assert "" + s + "" == "";
      TrimIs("", s, "");
    } else {
      assert left + s + right == left + (s + right);
      TrimStartIs(left, s + right);
      assert "" + s + right == s + right && left + s + "" == left + s;
      TrimIs("", s, right);
      TrimEndIs(left + s, right);
      TrimIs(left, s, "");
    }
  }

  lemma TrimOfSides(x: string, y: string)
    ensures Trim(x + "=" + y) == TrimStart(x) + "=" + TrimEnd(y)
  {
    hide TrimStart, TrimEnd;
    TrimStartAround(x, y);
    TrimEndAround(TrimStart(x), y);
  }

  /** What trimming leaves of an assignment: two texts around the equals sign that trim to key and value. */
  lemma TrimmedAssignment(e: Entry) returns (key: string, value: string)
    requires e.Assignment? && IsEntry(e)
    ensures Trim(EntryText(e)) == key + "=" + value && '=' !in key
    ensures Trim(key) == e.key && Trim(value) == e.value
  {
    var x, y := e.beforeKey + e.key + e.afterKey, e.beforeValue + e.value + e.afterValue;
    assert !IsWhiteSpace('=');
    hide TrimStart, TrimEnd, IsWhiteSpace;
    hide Trim;
    TrimPadded(e.beforeKey, e.key, e.afterKey);
    TrimPadded(e.beforeValue, e.value, e.afterValue);
    key, value := TrimStart(x), TrimEnd(y);
    TrimOfSides(x, y);
  }

  lemma AssignmentIsParsed(key: string, value: string)
    requires '=' !in key
    ensures var k, v := UnescapeDataString(Trim(key)), UnescapeDataString(Trim(value));
            ParseItem(key + "=" + value) == if IsBlank(k) then [] else [(k, v)]
  {
    var item := key + "=" + value;
    hide Trim, IsBlank, UnescapeDataString, FirstIndex;
    assert item[..|key|] == key && item[|key| + 1..] == value;
    FirstIndexIs(item, '=', |key|);
  }

  /** One entry that assigns, trimmed, is read as what it means. */
  lemma AssignmentIsRead(e: Entry)
    requires e.Assignment? && IsEntry(e)
    ensures Trim(EntryText(e)) != "" && ParseItem(Trim(EntryText(e))) == EntryPairs(e)
  {
    hide Trim, IsBlank, UnescapeDataString, ParseItem, EntryText, IsEntry;
    var key, value := TrimmedAssignment(e);
    AssignmentIsParsed(key, value);
  }

  lemma {:induction false} TrimIsPart(s: string)
    ensures forall c :: c in TrimStart(s) ==> c in s
    ensures forall c :: c in TrimEnd(s) ==> c in s
  {
    hide IsWhiteSpace;
    if s == "" {
    } else {
      TrimIsPart(s[1..]);
      TrimIsPart(s[..|s| - 1]);
    }
  }

  lemma EntryIsRead(e: Entry)
    requires IsEntry(e)
    ensures Trim(EntryText(e)) == "" ==> EntryPairs(e) == []
    ensures Trim(EntryText(e)) != "" ==> ParseItem(Trim(EntryText(e))) == EntryPairs(e)
  {
    if e.Assignment? {
      AssignmentIsRead(e);
    } else {
      TrimIsPart(e.text);
      TrimIsPart(TrimStart(e.text));
      hide TrimStart, TrimEnd, IsWhiteSpace, FirstIndex;
      var item := Trim(e.text);
      assert item[..|item|] == item;
      FirstIndexIs(item, '=', |item|);
    }
  }

  lemma PairsAssociate(x: seq<Pair>, y: seq<Pair>, z: seq<Pair>)
    ensures x + (y + z) == x + y + z
  {
  }

  lemma {:induction false} ParseItemsSplit(item: string, items: seq<string>, n: nat)
    requires n <= |items|
    ensures ParseItems([item] + items, n + 1) == ParseItem(item) + ParseItems(items, n)
  {
    hide ParseItem;
    if n == 0 {
      assert ParseItems([item] + items, 0) == [];
    } else {
      ParseItemsSplit(item, items, n - 1);
      assert ([item] + items)[n] == items[n - 1];
      PairsAssociate(ParseItem(item), ParseItems(items, n - 1), ParseItem(items[n - 1]));
    }
  }

  lemma NoCommaInEntry(e: Entry)
    requires IsEntry(e)
    ensures ',' !in EntryText(e)
  {
  }

  lemma SplitLast(item: string)
    requires ',' !in item
    ensures SplitItems(item) == if Trim(item) == "" then [] else [Trim(item)]
  {
    hide Trim, FirstIndex;
    assert item[..|item|] == item;
    FirstIndexIs(item, ',', |item|);
  }

  lemma SplitFirst(item: string, rest: string)
    requires ',' !in item
    ensures SplitItems(item + "," + rest) == (if Trim(item) == "" then [] else [Trim(item)]) + SplitItems(rest)
  {
    hide Trim, FirstIndex;
    var s := item + "," + rest;
    assert s[..|item|] == item && s[|item| + 1..] == rest;
    FirstIndexIs(s, ',', |item|);
  }

  lemma NoItems()
    ensures ParseItems([], 0) == []
  {
  }

  lemma ReadOneMore(item: string, pairs: seq<Pair>, items: seq<string>)
    requires (item == "" ==> pairs == []) && (item != "" ==> ParseItem(item) == pairs)
    ensures var all := (if item == "" then [] else [item]) + items;
            ParseItems(all, |all|) == pairs + ParseItems(items, |items|)
  {
    hide ParseItem, ParseItems;
    if item == "" {
      assert [] + items == items;
    } else {
      ParseItemsSplit(item, items, |items|);
    }
  }

  lemma {:induction false} EntriesAreRead(es: seq<Entry>)
    requires es != [] && forall e :: e in es ==> IsEntry(e)
    ensures var items := SplitItems(EntriesText(es)); ParseItems(items, |items|) == EntriesPairs(es)
  {
    hide ParseItem, Trim, EntryText, EntryPairs, IsEntry, ParseItems, SplitItems;
    var item := EntryText(es[0]);
    assert es[0] in es;
    NoCommaInEntry(es[0]);
    EntryIsRead(es[0]);
    NoItems();
    if |es| == 1 {
      SplitLast(item);
      ReadOneMore(Trim(item), EntryPairs(es[0]), []);
      assert (if Trim(item) == "" then [] else [Trim(item)]) + [] == SplitItems(item);
      assert EntriesPairs(es) == EntryPairs(es[0]) + [];
    } else {
      SplitFirst(item, EntriesText(es[1..]));
      EntriesAreRead(es[1..]);
      ReadOneMore(Trim(item), EntryPairs(es[0]), SplitItems(EntriesText(es[1..])));
    }
  }

  lemma SeparatorIsNotBlank(es: seq<Entry>)
    requires |es| > 1 || (|es| == 1 && es[0].Assignment?)
    ensures !IsBlank(EntriesText(es))
  {
    var s := EntriesText(es);
    if |es| > 1 {
      assert s[|EntryText(es[0])|] == ',';
      assert s[|EntryText(es[0])|] in s;
    } else {
      var e := es[0];
      assert s[|e.beforeKey + e.key + e.afterKey|] == '=';
      assert s[|e.beforeKey + e.key + e.afterKey|] in s;
    }
  }

  /** A header of any service is read entry by entry: white space around keys and values does not matter, entries
      without an equals sign or with a blank key are skipped, and everything after the first equals sign is the
      value. */
  lemma ForeignHeaderIsRead(es: seq<Entry>)
    requires es != [] && forall e :: e in es ==> IsEntry(e)
    ensures Parsed(Some(EntriesText(es))) == EntriesPairs(es)
  {
    EntriesAreRead(es);
    if |es| == 1 && es[0].Junk? {
      assert EntriesPairs(es[1..]) == [];
    } else {
      SeparatorIsNotBlank(es);
    }
  }

  // ----- Headers passed on -----

  function AsItems(ps: seq<Pair>): seq<Item> {
    seq(|ps|, i requires 0 <= i < |ps| => Item(Some(ps[i].0), Some(ps[i].1)))
  }

  lemma {:induction false} AllKept(ps: seq<Pair>)
    requires forall p :: p in ps ==> !IsBlank(p.0)
    ensures KeptPairs(AsItems(ps)) == ps
  {
    if ps == [] {
    } else {
      AllKept(ps[1..]);
      assert ps[0] in ps;
      assert AsItems(ps)[1..] == AsItems(ps[1..]);
    }
  }

  lemma {:induction false} ParsedKeysAreNotBlank(items: seq<string>, n: nat)
    requires n <= |items|
    ensures forall p :: p in ParseItems(items, n) ==> !IsBlank(p.0)
  {
    hide SplitKeyValue, UnescapeDataString, IsBlank;
    if n == 0 {
    } else {
      ParsedKeysAreNotBlank(items, n - 1);
    }
  }

  /** Whatever header arrives, printing what was parsed from it gives a header that parses the same: a
      service can pass baggage on without changing it. */
  lemma ParsedBaggageIsStable(header: Option<string>)
    ensures Parsed(FormatBaggage(AsItems(Parsed(header)))) == Parsed(header)
  {
    var ps := Parsed(header);
    if header.Some? {
      ParsedKeysAreNotBlank(SplitItems(header.value), |SplitItems(header.value)|);
    }
    AllKept(ps);
    BaggageRoundTrip(AsItems(ps));
  }
}

/**
 * The bookkeeping around the solar-term calculation in src/SolarTerm.php:
 * term names, the 25-entry catalogue built by getSolarTerms, its keying by
 * date, and the prev / equal / next scan of getRecentlySolarTerm.
 */
module SolarTerms {
  import opened Wrappers

  const SolarTermsCount: int := 24
  const WinterSolstice: int := 18
  const CatalogueLength: int := 25

  /** getSolorTermName: the name of each of the 24 term codes, and nothing (PHP false) otherwise. */
  function TermName(code: int): (name: Option<string>)
    ensures name.Some? <==> 0 <= code < SolarTermsCount
  {
    match code
    case 0 => Some("春分")
    case 1 => Some("清明")
    case 2 => Some("谷雨")
    case 3 => Some("立夏")
    case 4 => Some("小满")
    case 5 => Some("芒种")
    case 6 => Some("夏至")
    case 7 => Some("小暑")
    case 8 => Some("大暑")
    case 9 => Some("立秋")
    case 10 => Some("处暑")
    case 11 => Some("白露")
    case 12 => Some("秋分")
    case 13 => Some("寒露")
    case 14 => Some("霜降")
    case 15 => Some("立冬")
    case 16 => Some("小雪")
    case 17 => Some("大雪")
    case 18 => Some("冬至")
    case 19 => Some("小寒")
    case 20 => Some("大寒")
    case 21 => Some("立春")
    case 22 => Some("雨水")
    case 23 => Some("惊蛰")
    case _ => None
  }

  /** The inverse lookup: the code a name belongs to, read character by character. */
  function CodeOfName(name: string): (code: Option<int>)
    ensures code.Some? ==> 0 <= code.value < SolarTermsCount
  {
    if |name| != 2 then None
    else
      var second := name[1];
      match name[0]
      case '春' => if second == '分' then Some(0) else None
      case '清' => if second == '明' then Some(1) else None
      case '谷' => if second == '雨' then Some(2) else None
      case '立' =>
        if second == '夏' then Some(3)
        else if second == '秋' then Some(9)
        else if second == '冬' then Some(15)
        else if second == '春' then Some(21)
        else None
      case '小' =>
        if second == '满' then Some(4)
        else if second == '暑' then Some(7)
        else if second == '雪' then Some(16)
        else if second == '寒' then Some(19)
        else None
      case '芒' => if second == '种' then Some(5) else None
      case '夏' => if second == '至' then Some(6) else None
      case '大' =>
        if second == '暑' then Some(8)
        else if second == '雪' then Some(17)
        else if second == '寒' then Some(20)
        else None
      case '处' => if second == '暑' then Some(10) else None
      case '白' => if second == '露' then Some(11) else None
      case '秋' => if second == '分' then Some(12) else None
      case '寒' => if second == '露' then Some(13) else None
      case '霜' => if second == '降' then Some(14) else None
      case '冬' => if second == '至' then Some(18) else None
      case '雨' => if second == '水' then Some(22) else None
      case '惊' => if second == '蛰' then Some(23) else None
      case _ => None
  }

  /** Every code's name leads back to the code. */
  lemma NameRoundTrip(code: int)
    requires 0 <= code < SolarTermsCount
    ensures CodeOfName(TermName(code).value) == Some(code)
  {
  }

  /** Distinct codes have distinct names. */
  lemma {:induction false} NamesDistinct(c1: int, c2: int)
    requires 0 <= c1 < SolarTermsCount && 0 <= c2 < SolarTermsCount
    requires c1 != c2
    ensures TermName(c1) != TermName(c2)
  {
    NameRoundTrip(c1);
    NameRoundTrip(c2);
  }

  /** The year the catalogue is built for: the argument when it is in 1900..2100, else the current year. */
  function SelectYear(year: int, currentYear: int): (y: int)
    ensures 1900 <= year <= 2100 ==> y == year
    ensures !(1900 <= year <= 2100) ==> y == currentYear
  {
    if 1900 <= year && year <= 2100 then year else currentYear
  }

  /**
   * One catalogue entry: the arguments the term instant is computed from
   * (working year, ecliptic longitude in degrees), the code and its name.
   */
  datatype TermSlot = TermSlot(year: int, angle: int, code: int, name: string)

  /** Entry i of the catalogue for year y: code (18 + i) mod 24, in year y - 1 for i = 0 and y after. */
  predicate IsCatalogueSlot(y: int, i: int, t: TermSlot) {
    && t.code == (WinterSolstice + i) % SolarTermsCount
    && t.angle == 15 * t.code
    && TermName(t.code) == Some(t.name)
    && t.year == (if i == 0 then y - 1 else y)
  }

  /** The code/year loop of getSolarTerms, from the previous winter solstice to this year's. */
  method GetSolarTerms(year: int, currentYear: int) returns (terms: seq<TermSlot>)
    ensures |terms| == CatalogueLength
    ensures forall i :: 0 <= i < |terms| ==> IsCatalogueSlot(SelectYear(year, currentYear), i, terms[i])
  {
    var y := SelectYear(year, currentYear);
    var working := y - 1;
    var start := WinterSolstice;
    terms := [];
    for i := 0 to CatalogueLength
      invariant |terms| == i
      invariant start == (WinterSolstice + i) % SolarTermsCount
      invariant working == y - 1 + (if i == 0 then 0 else if i <= 24 then 1 else 2)
      invariant forall j :: 0 <= j < i ==> IsCatalogueSlot(y, j, terms[j])
    {
      var name := TermName(start);
      terms := terms + [TermSlot(working, start * 15, start, name.value)];
      if start == WinterSolstice {
        working := working + 1;
      }
      start := (start + 1) % SolarTermsCount;
    }
  }

  /** The catalogue opens and closes with the winter solstice. */
  lemma CatalogueEnds(y: int, first: TermSlot, last: TermSlot)
    requires IsCatalogueSlot(y, 0, first) && IsCatalogueSlot(y, CatalogueLength - 1, last)
    ensures first.code == last.code == WinterSolstice
    ensures first.year == y - 1 && last.year == y
  {
  }

  /** Entry 1 of the catalogue for year y, the fallback of the adjacent-term query, is Slight Cold of year y. */
  lemma SecondSlotIsSlightCold(y: int, t: TermSlot)
    requires IsCatalogueSlot(y, 1, t)
    ensures t.code == 19 && t.year == y && t.angle == 285 && t.name == "小寒"
  {
  }

  /**
   * The fallback list is built for the query year plus one, through the
   * same 1900..2100 clamp. For query years 1899..2099 its entry 1 is Slight
   * Cold of the following year; for a query in 2100 the year 2101 is out of
   * range, so entry 1 is Slight Cold of the current year instead.
   */
  lemma FallbackYear(queryYear: int, currentYear: int, t: TermSlot)
    requires IsCatalogueSlot(SelectYear(queryYear + 1, currentYear), 1, t)
    ensures t.code == 19
    ensures 1899 <= queryYear <= 2099 ==> t.year == queryYear + 1
    ensures queryYear == 2100 ==> t.year == currentYear
  {
    SecondSlotIsSlightCold(SelectYear(queryYear + 1, currentYear), t);
  }

  /** Where code c falls in the year-y part (entries 1..24) of the catalogue. */
  function PositionInYear(c: int): (i: int)
    requires 0 <= c < SolarTermsCount
    ensures 1 <= i < CatalogueLength
    ensures (WinterSolstice + i) % SolarTermsCount == c
  {
    (c + 5) % SolarTermsCount + 1
  }

  /** Every code occurs exactly once among entries 1..24, so each term of year y is listed once. */
  lemma {:induction false} EachCodeOnceInYear(c: int, i: int)
    requires 0 <= c < SolarTermsCount && 1 <= i < CatalogueLength
    ensures (WinterSolstice + i) % SolarTermsCount == c <==> i == PositionInYear(c)
  {
    assert (WinterSolstice + i) % SolarTermsCount == (if i <= 5 then WinterSolstice + i else i - 6);
    assert PositionInYear(c) == (if c > WinterSolstice then c - WinterSolstice else c + 6);
  }

  /** An element of a date-keyed list: the day key (Ymd as an integer) and the term code. */
  datatype Entry = Entry(key: int, code: int)

  predicate HasKey(s: seq<Entry>, k: int) {
    exists j :: 0 <= j < |s| && s[j].key == k
  }

  predicate DistinctKeys(s: seq<Entry>) {
    forall i, j :: 0 <= i < j < |s| ==> s[i].key != s[j].key
  }

  predicate IncreasingKeys(s: seq<Entry>) {
    forall i, j :: 0 <= i < j < |s| ==> s[i].key < s[j].key
  }

  predicate Increasing(s: seq<int>) {
    forall i, j :: 0 <= i < j < |s| ==> s[i] < s[j]
  }

  /** The position of the first entry with key k, if there is one. */
  function KeyIndex(s: seq<Entry>, k: int): (r: Option<nat>)
    ensures r.Some? ==> r.value < |s| && s[r.value].key == k
    ensures r.Some? ==> forall j :: 0 <= j < r.value ==> s[j].key != k
    ensures r.None? <==> !HasKey(s, k)
    decreases |s|
  {
    if |s| == 0 then None
    else if s[0].key == k then Some(0)
    else
      var rest := KeyIndex(s[1..], k);
      if rest.None? then
        assert forall j :: 1 <= j < |s| ==> s[j].key == s[1..][j - 1].key;
        None
      else Some(rest.value + 1)
  }

  /**
   * PHP's `$a[$key] = $value` on an ordered array: an existing key keeps its
   * position and takes the new value, a new key is appended.
   */
  function ArraySet(a: seq<Entry>, key: int, code: int): (r: seq<Entry>)
    ensures HasKey(r, key)
    ensures |r| == (if HasKey(a, key) then |a| else |a| + 1)
    ensures DistinctKeys(a) ==> forall j :: 0 <= j < |r| && r[j].key == key ==> r[j].code == code
    ensures forall j :: 0 <= j < |a| && a[j].key != key ==> r[j] == a[j]
    ensures !HasKey(a, key) ==> r == a + [Entry(key, code)]
    ensures forall k :: HasKey(r, k) <==> k == key || HasKey(a, k)
    ensures DistinctKeys(a) ==> DistinctKeys(r)
  {
    match KeyIndex(a, key)
    case Some(i) =>
      var r := a[i := Entry(key, code)];
      assert forall j :: 0 <= j < |r| ==> r[j].key == a[j].key;
      r
    case None =>
      var r := a + [Entry(key, code)];
      assert r[|a|].key == key;
      assert forall j :: 0 <= j < |a| ==> r[j] == a[j];
      r
  }

  /**
   * The TERMS_KEY_DATE keying of getSolarTerms: entry i is stored under
   * dayKeys[i], the day of its term instant.
   */
  method IndexByDate(terms: seq<TermSlot>, dayKeys: seq<int>) returns (entries: seq<Entry>)
    requires |dayKeys| == |terms|
    ensures DistinctKeys(entries)
    ensures forall k :: HasKey(entries, k) <==> k in dayKeys
    ensures Increasing(dayKeys) ==> entries == seq(|terms|, i requires 0 <= i < |terms| => Entry(dayKeys[i], terms[i].code))
  {
    entries := [];
    for i := 0 to |terms|
      invariant DistinctKeys(entries)
      invariant forall k :: HasKey(entries, k) <==> k in dayKeys[..i]
      invariant Increasing(dayKeys) ==> entries == seq(i, j requires 0 <= j < i => Entry(dayKeys[j], terms[j].code))
    {
      if Increasing(dayKeys) {
        assert forall j :: 0 <= j < |entries| ==> entries[j].key < dayKeys[i];
      }
      assert dayKeys[..i + 1] == dayKeys[..i] + [dayKeys[i]];
      entries := ArraySet(entries, dayKeys[i], terms[i].code);
    }
    assert dayKeys[..|terms|] == dayKeys;
  }

  /** The entry stored under key k, if any (`isset($resultArr[$_date])`). */
  function LookupKey(s: seq<Entry>, k: int): (r: Option<Entry>)
    ensures r.Some? ==> r.value in s && r.value.key == k
    ensures r.None? <==> !HasKey(s, k)
  {
    match KeyIndex(s, k)
    case Some(i) => Some(s[i])
    case None => None
  }

  /** What the foreach of getRecentlySolarTerm has found so far. */
  datatype Bracket = Bracket(prev: Option<Entry>, next: Option<Entry>)

  /**
   * One pass of the foreach. `later(k, p)` stands for `$key > $result['prev']['date']`
   * and `earlier(k, n)` for `$key < $result['next']['date']`, PHP's loose
   * comparison of a day key with a stored date string.
   */
  function ScanStep(b: Bracket, e: Entry, query: int, later: (int, Entry) -> bool, earlier: (int, Entry) -> bool): (r: Bracket)
    ensures r.prev == b.prev || (r.prev == Some(e) && e.key < query)
    ensures r.next == b.next || (r.next == Some(e) && e.key > query)
    ensures r.prev == b.prev || r.next == b.next
    ensures e.key == query ==> r == b
    ensures e.key < query && b.prev.None? ==> r.prev == Some(e)
    ensures e.key > query && b.next.None? ==> r.next == Some(e)
  {
    if e.key < query then
      if b.prev.None? then Bracket(Some(e), b.next)
      else if later(e.key, b.prev.value) then Bracket(Some(e), b.next)
      else b
    else if e.key == query then b
    else if b.next.None? then Bracket(b.prev, Some(e))
    else if earlier(e.key, b.next.value) then Bracket(b.prev, Some(e))
    else b
  }

  /** The foreach as a left fold over the list. */
  function Scan(s: seq<Entry>, query: int, later: (int, Entry) -> bool, earlier: (int, Entry) -> bool): (r: Bracket)
    ensures r.prev.Some? ==> r.prev.value.key < query
    ensures r.next.Some? ==> r.next.value.key > query
    decreases |s|
  {
    if |s| == 0 then Bracket(None, None)
    else ScanStep(Scan(s[..|s| - 1], query, later, earlier), s[|s| - 1], query, later, earlier)
  }

  /** The prev/next loop of getRecentlySolarTerm. */
  method ScanAdjacent(entries: seq<Entry>, query: int, later: (int, Entry) -> bool, earlier: (int, Entry) -> bool)
    returns (prev: Option<Entry>, next: Option<Entry>)
    ensures Bracket(prev, next) == Scan(entries, query, later, earlier)
  {
    prev, next := None, None;
    for i := 0 to |entries|
      invariant Bracket(prev, next) == Scan(entries[..i], query, later, earlier)
    {
      assert entries[..i + 1][..i] == entries[..i];
      var key := entries[i].key;
      if key < query {
        if prev.None? {
          prev := Some(entries[i]);
          continue;
        }
        if later(key, prev.value) {
          prev := Some(entries[i]);
          continue;
        }
      } else {
        if key == query {
          continue;
        }
        if next.None? {
          next := Some(entries[i]);
          continue;
        }
        if earlier(key, next.value) {
          next := Some(entries[i]);
          continue;
        }
      }
    }
    assert entries[..|entries|] == entries;
  }

  /**
   * prev only ever holds an entry before the query day and next one after
   * it, so they are never the same entry; each is empty exactly when the
   * list has no key on its side.
   */
  lemma {:induction false} ScanSides(s: seq<Entry>, query: int, later: (int, Entry) -> bool, earlier: (int, Entry) -> bool)
    ensures var b := Scan(s, query, later, earlier);
      b.prev.Some? ==> b.prev.value in s && b.prev.value.key < query
    ensures var b := Scan(s, query, later, earlier);
      b.next.Some? ==> b.next.value in s && b.next.value.key > query
    ensures Scan(s, query, later, earlier).prev.None? <==> forall e :: e in s ==> e.key >= query
    ensures Scan(s, query, later, earlier).next.None? <==> forall e :: e in s ==> e.key <= query
    decreases |s|
  {
    if |s| > 0 {
      var init := s[..|s| - 1];
      ScanSides(init, query, later, earlier);
      assert s == init + [s[|s| - 1]];
    }
  }

  /**
   * When the loose comparisons agree with the order of keys, prev is the
   * latest key before the query and next the earliest key after it, in any
   * list order.
   */
  lemma {:induction false} ScanExtremes(s: seq<Entry>, query: int, later: (int, Entry) -> bool, earlier: (int, Entry) -> bool)
    requires forall k: int, e: Entry :: later(k, e) <==> k > e.key
    requires forall k: int, e: Entry :: earlier(k, e) <==> k < e.key
    ensures var b := Scan(s, query, later, earlier);
      b.prev.Some? ==> forall e :: e in s && e.key < query ==> e.key <= b.prev.value.key
    ensures var b := Scan(s, query, later, earlier);
      b.next.Some? ==> forall e :: e in s && e.key > query ==> e.key >= b.next.value.key
    decreases |s|
  {
    if |s| > 0 {
      var init := s[..|s| - 1];
      ScanExtremes(init, query, later, earlier);
      ScanSides(init, query, later, earlier);
      assert s == init + [s[|s| - 1]];
    }
  }

  /**
   * For a list in increasing key order it is enough that a later key
   * compares as later than a stored entry and not as earlier, which PHP's
   * loose comparison of a key with a "Y-m-d H:i:s" string gives for
   * four-digit years: prev is again the latest key before the query and
   * next the earliest after it.
   */
  lemma {:induction false} ScanExtremesSorted(s: seq<Entry>, query: int, later: (int, Entry) -> bool, earlier: (int, Entry) -> bool)
    requires IncreasingKeys(s)
    requires forall k: int, e: Entry :: k > e.key ==> later(k, e) && !earlier(k, e)
    ensures var b := Scan(s, query, later, earlier);
      b.prev.Some? ==> forall e :: e in s && e.key < query ==> e.key <= b.prev.value.key
    ensures var b := Scan(s, query, later, earlier);
      b.next.Some? ==> forall e :: e in s && e.key > query ==> e.key >= b.next.value.key
    decreases |s|
  {
    if |s| > 0 {
      var init := s[..|s| - 1];
      var last := s[|s| - 1];
      assert IncreasingKeys(init);
      ScanExtremesSorted(init, query, later, earlier);
      ScanSides(init, query, later, earlier);
      EarlierEntriesHaveSmallerKeys(s);
      var b := Scan(init, query, later, earlier);
      assert s == init + [last];
      assert Scan(s, query, later, earlier) == ScanStep(b, last, query, later, earlier);
      if last.key < query && b.prev.Some? {
        assert later(last.key, b.prev.value);
      }
      if last.key > query && b.next.Some? {
        assert !earlier(last.key, b.next.value);
      }
    }
  }

  /** In a list with increasing keys, every entry before the last has a smaller key. */
  lemma EarlierEntriesHaveSmallerKeys(s: seq<Entry>)
    requires IncreasingKeys(s) && |s| > 0
    ensures forall e :: e in s[..|s| - 1] ==> e.key < s[|s| - 1].key
  {
    forall e | e in s[..|s| - 1]
      ensures e.key < s[|s| - 1].key
    {
      var j :| 0 <= j < |s| - 1 && s[..|s| - 1][j] == e;
    }
  }

  /** Which part of the answer the caller asked for ($type). */
  datatype AdjacentType = Prev | Equal | Next | All

  /** The full answer: previous, same-day and next term, each possibly absent. */
  datatype Adjacent = Adjacent(prev: Option<Entry>, equal: Option<Entry>, next: Option<Entry>)

  datatype Answer = One(entry: Option<Entry>) | Every(adjacent: Adjacent)

  /**
   * getRecentlySolarTerm over this year's date-keyed list; `fallback` is
   * entry 1 of the following year's catalogue, used when no later key exists.
   */
  method RecentlySolarTerm(entries: seq<Entry>, query: int, kind: AdjacentType, fallback: Entry,
                           later: (int, Entry) -> bool, earlier: (int, Entry) -> bool)
    returns (answer: Answer)
    ensures kind == Equal ==> answer == One(LookupKey(entries, query))
    ensures kind == Prev ==> answer == One(Scan(entries, query, later, earlier).prev)
    ensures kind == Next ==> answer == One(NextOrFallback(Scan(entries, query, later, earlier), fallback))
    ensures kind == All ==> answer == Every(Adjacent(Scan(entries, query, later, earlier).prev,
                                                  LookupKey(entries, query),
                                                  NextOrFallback(Scan(entries, query, later, earlier), fallback)))
  {
    var equal := LookupKey(entries, query);
    if kind == Equal {
      return One(equal);
    }
    var prev, next := ScanAdjacent(entries, query, later, earlier);
    if next.None? {
      next := Some(fallback);
    }
    var result := Adjacent(prev, equal, next);
    match kind {
      case Prev => answer := One(result.prev);
      case Next => answer := One(result.next);
      case All => answer := Every(result);
    }
  }

  /** next, or the following year's entry when the scan found none. */
  function NextOrFallback(b: Bracket, fallback: Entry): (r: Option<Entry>)
    ensures r.Some?
    ensures b.next.Some? ==> r == b.next
  {
    if b.next.None? then Some(fallback) else b.next
  }

  /** The fallback is taken exactly when this year's list has no key after the query. */
  lemma FallbackWhenNoLaterKey(s: seq<Entry>, query: int, fallback: Entry, later: (int, Entry) -> bool, earlier: (int, Entry) -> bool)
    ensures NextOrFallback(Scan(s, query, later, earlier), fallback) == Some(fallback)
         || NextOrFallback(Scan(s, query, later, earlier), fallback).value.key > query
    ensures (forall e :: e in s ==> e.key <= query) ==> NextOrFallback(Scan(s, query, later, earlier), fallback) == Some(fallback)
  {
    ScanSides(s, query, later, earlier);
  }

  /** equal, prev and next are pairwise different entries when the fallback lies after the query. */
  lemma AnswerEntriesDiffer(s: seq<Entry>, query: int, fallback: Entry, later: (int, Entry) -> bool, earlier: (int, Entry) -> bool)
    requires fallback.key > query
    ensures var b := Scan(s, query, later, earlier);
      var n := NextOrFallback(b, fallback);
      var q := LookupKey(s, query);
      && (b.prev.Some? ==> b.prev != n)
      && (b.prev.Some? && q.Some? ==> b.prev != q)
      && (q.Some? ==> q != n)
  {
    ScanSides(s, query, later, earlier);
  }
}

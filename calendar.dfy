/**
 * The calendar page's helpers (pages/calendar.js): the `YYYY-MM-DD` label of
 * the selected date, the per-day delivery count looked up in the grouped
 * delivery list, and the tile rules built on that count.
 *
 * `normalizeDate` (local midnight, then the UTC date string) is a parameter
 * `normalize` from instants to day keys; no property of it is taken for granted.
 */
module Calendar {
  import opened Wrappers
  import opened Records

  // ---------------------------------------------------------------------------
  // formatDate

  /** What `formatDate` reads from a JavaScript Date: `getFullYear()`,
      `getMonth()` (0 for January) and `getDate()`. */
  datatype CalendarDate = CalendarDate(year: int, month0: int, day: int)

  function DigitChar(d: int): (c: char)
    requires 0 <= d <= 9
    ensures '0' <= c <= '9' && c as int - '0' as int == d
  {
    "0123456789"[d]
  }

  predicate IsDigit(c: char) {
    '0' <= c <= '9'
  }

  /** The decimal digits of a natural number, most significant first. */
  function NatToString(n: nat): (s: string)
    ensures |s| >= 1
    ensures forall i :: 0 <= i < |s| ==> IsDigit(s[i])
    ensures n >= 10 ==> |s| >= 2
  {
    if n < 10 then [DigitChar(n)] else NatToString(n / 10) + [DigitChar(n % 10)]
  }

  /** `String(n)` for an integer. */
  function IntToString(n: int): string {
    if n < 0 then "-" + NatToString(-n) else NatToString(n)
  }

  /** `s.padStart(2, '0')`: zeros in front up to length 2. */
  function PadStart2(s: string): (r: string)
    ensures |r| == if |s| >= 2 then |s| else 2
    ensures r[|r| - |s|..] == s
    ensures forall i :: 0 <= i < |r| - |s| ==> r[i] == '0'
  {
    if |s| >= 2 then s else if |s| == 1 then "0" + s else "00"
  }

  /** `formatDate`: the year, then the month (`getMonth() + 1`) and the day,
      each padded to two digits, joined by dashes. */
  function FormatDate(d: CalendarDate): (r: string)
    ensures |r| >= |IntToString(d.year)| + 5
    ensures r[..|IntToString(d.year)|] == IntToString(d.year) && r[|IntToString(d.year)|] == '-'
  {
    IntToString(d.year) + "-" + PadStart2(IntToString(d.month0 + 1)) + "-" + PadStart2(IntToString(d.day))
  }

  /** The value of a string read as decimal digits (leading zeros allowed). */
  function ParseDigits(s: string): int {
    if s == [] then 0 else 10 * ParseDigits(s[..|s| - 1]) + (s[|s| - 1] as int - '0' as int)
  }

  /** Reading the digits back gives the number. */
  lemma {:induction false} NatRoundTrip(n: nat)
    ensures ParseDigits(NatToString(n)) == n
  {
    var s := NatToString(n);
    if n >= 10 {
      NatRoundTrip(n / 10);
      assert s[..|s| - 1] == NatToString(n / 10);
    }
  }

  /** A leading zero does not change the value. */
  lemma {:induction false} LeadingZero(s: string)
    ensures ParseDigits("0" + s) == ParseDigits(s)
  {
    if s != [] {
      var t := "0" + s;
      assert t[..|t| - 1] == "0" + s[..|s| - 1];
      LeadingZero(s[..|s| - 1]);
    } else {
      assert ("0" + s)[..0] == [];
    }
  }

  /** The value of a two-character string read as decimal digits. */
  lemma ParseTwo(c1: char, c2: char)
    ensures ParseDigits([c1, c2]) == 10 * (c1 as int - '0' as int) + (c2 as int - '0' as int)
  {
    var s := [c1, c2];
    assert s[..|s| - 1] == [c1];
    assert [c1][..0] == [];
    assert ParseDigits([c1]) == c1 as int - '0' as int;
  }

  /** A number from 1 to 99, padded, is exactly two digits that read back as it. */
  lemma TwoDigits(n: int)
    requires 1 <= n <= 99
    ensures |PadStart2(IntToString(n))| == 2
    ensures forall i :: 0 <= i < 2 ==> IsDigit(PadStart2(IntToString(n))[i])
    ensures ParseDigits(PadStart2(IntToString(n))) == n
  {
    var p := PadStart2(IntToString(n));
    if n < 10 {
      assert IntToString(n) == [DigitChar(n)];
      assert p == ['0', DigitChar(n)];
      ParseTwo('0', DigitChar(n));
    } else {
      assert NatToString(n / 10) == [DigitChar(n / 10)];
      assert IntToString(n) == [DigitChar(n / 10), DigitChar(n % 10)];
      assert p == [DigitChar(n / 10), DigitChar(n % 10)];
      ParseTwo(DigitChar(n / 10), DigitChar(n % 10));
    }
  }

  /** Where the parts of `y-mm-dd` sit when the month and day have two characters. */
  lemma JoinedParts(y: string, mm: string, dd: string, month: int, day: int)
    requires |mm| == 2 && |dd| == 2
    requires ParseDigits(mm) == month && ParseDigits(dd) == day
    requires forall i :: 0 <= i < 2 ==> IsDigit(mm[i]) && IsDigit(dd[i])
    ensures var r := y + "-" + mm + "-" + dd;
      && |r| == |y| + 6
      && r[..|r| - 6] == y && r[|r| - 6] == '-' && r[|r| - 3] == '-'
      && ParseDigits(r[|r| - 5..|r| - 3]) == month && ParseDigits(r[|r| - 2..]) == day
      && forall i :: (|r| - 5 <= i < |r| - 3 || |r| - 2 <= i < |r|) ==> IsDigit(r[i])
  {
    var r := y + "-" + mm + "-" + dd;
    assert r[|r| - 5..|r| - 3] == mm;
    assert r[|r| - 2..] == dd;
  }

  lemma FormatDateRoundTrip(d: CalendarDate)
    requires 0 <= d.year && 0 <= d.month0 <= 11 && 1 <= d.day <= 31
    ensures var r := FormatDate(d);
      && |r| >= 7
      && r[..|r| - 6] == IntToString(d.year)
      && r[|r| - 6] == '-' && r[|r| - 3] == '-'
      && ParseDigits(r[..|r| - 6]) == d.year
      && ParseDigits(r[|r| - 5..|r| - 3]) == d.month0 + 1
      && ParseDigits(r[|r| - 2..]) == d.day
      && forall i :: (|r| - 5 <= i < |r| - 3 || |r| - 2 <= i < |r|) ==> IsDigit(r[i])
  {
    var y := IntToString(d.year);
    var mm := PadStart2(IntToString(d.month0 + 1));
    var dd := PadStart2(IntToString(d.day));
    TwoDigits(d.month0 + 1);
    TwoDigits(d.day);
    NatRoundTrip(d.year);
    assert FormatDate(d) == y + "-" + mm + "-" + dd;
    JoinedParts(y, mm, dd, d.month0 + 1, d.day);
  }

  // ---------------------------------------------------------------------------
  // getDeliveryCount

  /** An entry of the grouped delivery list: a delivery instant and its count
      (`None` when the entry carries no count). */
  datatype DeliveryEntry = DeliveryEntry(deliveryDate: Instant, count: Option<int>)

  type DayKey = string

  /** `deliveries.find(...)`: the position of the first entry whose normalised
      delivery date is `key`. */
  function FindFirst(deliveries: seq<DeliveryEntry>, key: DayKey, normalize: Instant -> DayKey): (r: Option<nat>)
    ensures r.Some? ==> r.value < |deliveries| && normalize(deliveries[r.value].deliveryDate) == key
    ensures r.Some? ==> forall k :: 0 <= k < r.value ==> normalize(deliveries[k].deliveryDate) != key
    ensures r.None? ==> forall k :: 0 <= k < |deliveries| ==> normalize(deliveries[k].deliveryDate) != key
  {
    if deliveries == [] then None
    else if normalize(deliveries[0].deliveryDate) == key then Some(0)
    else match FindFirst(deliveries[1..], key, normalize)
      case None => None
      case Some(k) => Some(k + 1)
  }

  /** `?.count || 0`: no entry, no count, or a zero count all read as 0. */
  function CountOrZero(deliveries: seq<DeliveryEntry>, found: Option<nat>): int
    requires found.Some? ==> found.value < |deliveries|
  {
    match found
    case None => 0
    case Some(k) => deliveries[k].count.GetOr(0)
  }

  /** `getDeliveryCount(date)`: the count of the first entry on the same day,
      or 0 when there is none. */
  function GetDeliveryCount(deliveries: seq<DeliveryEntry>, date: Instant, normalize: Instant -> DayKey): (r: int)
    ensures (forall k :: 0 <= k < |deliveries| ==> normalize(deliveries[k].deliveryDate) != normalize(date))
            ==> r == 0
    ensures forall k :: 0 <= k < |deliveries| && normalize(deliveries[k].deliveryDate) == normalize(date)
              && (forall j :: 0 <= j < k ==> normalize(deliveries[j].deliveryDate) != normalize(date))
              ==> r == deliveries[k].count.GetOr(0)
  {
    CountOrZero(deliveries, FindFirst(deliveries, normalize(date), normalize))
  }

  /** Only the first matching entry is read: when it has no count or a zero
      count the result is 0, whatever later entries on that day hold. */
  lemma FirstMatchWins(deliveries: seq<DeliveryEntry>, date: Instant, normalize: Instant -> DayKey, k: nat)
    requires k < |deliveries| && normalize(deliveries[k].deliveryDate) == normalize(date)
    requires forall j :: 0 <= j < k ==> normalize(deliveries[j].deliveryDate) != normalize(date)
    requires deliveries[k].count.None? || deliveries[k].count == Some(0)
    ensures GetDeliveryCount(deliveries, date, normalize) == 0
  {
  }

  /** The page's selected date and the count shown under the calendar. */
  datatype CalendarState = CalendarState(selectedDate: Instant, deliveryCount: int)

  /** `handleDateChange`: stores the date and the count found for it by the
      same first-match lookup. */
  function HandleDateChange(deliveries: seq<DeliveryEntry>, date: Instant, normalize: Instant -> DayKey)
    : (r: CalendarState)
    ensures r.selectedDate == date
    ensures r.deliveryCount == GetDeliveryCount(deliveries, date, normalize)
  {
    var key := normalize(date);
    CalendarState(date, CountOrZero(deliveries, FindFirst(deliveries, key, normalize)))
  }

  // ---------------------------------------------------------------------------
  // Tiles

  /** `tileDisabled`: no deliveries counted on that day. */
  function TileDisabled(deliveries: seq<DeliveryEntry>, date: Instant, normalize: Instant -> DayKey): (r: bool)
    ensures (forall k :: 0 <= k < |deliveries| ==> normalize(deliveries[k].deliveryDate) != normalize(date)) ==> r
    ensures forall k :: 0 <= k < |deliveries| && normalize(deliveries[k].deliveryDate) == normalize(date)
              && (forall j :: 0 <= j < k ==> normalize(deliveries[j].deliveryDate) != normalize(date))
              ==> (r <==> deliveries[k].count.GetOr(0) == 0)
  {
    GetDeliveryCount(deliveries, date, normalize) == 0
  }

  /** `tileContent`: a badge with the count when it is positive. */
  function TileBadge(deliveries: seq<DeliveryEntry>, date: Instant, normalize: Instant -> DayKey): (r: Option<int>)
    ensures r.Some? ==> r.value > 0
    ensures (forall k :: 0 <= k < |deliveries| ==> normalize(deliveries[k].deliveryDate) != normalize(date)) ==> r.None?
    ensures forall k :: 0 <= k < |deliveries| && normalize(deliveries[k].deliveryDate) == normalize(date)
              && (forall j :: 0 <= j < k ==> normalize(deliveries[j].deliveryDate) != normalize(date))
              && deliveries[k].count.GetOr(0) > 0
              ==> r == Some(deliveries[k].count.GetOr(0))
  {
    var count := GetDeliveryCount(deliveries, date, normalize);
    if count > 0 then Some(count) else None
  }

  /** When no entry carries a negative count, every tile is either disabled or
      shows a badge, never both; a badge always shows a positive count. */
  lemma TileRules(deliveries: seq<DeliveryEntry>, date: Instant, normalize: Instant -> DayKey)
    requires forall k :: 0 <= k < |deliveries| ==> deliveries[k].count.GetOr(0) >= 0
    ensures TileDisabled(deliveries, date, normalize) <==> TileBadge(deliveries, date, normalize).None?
    ensures TileBadge(deliveries, date, normalize).Some? ==>
              TileBadge(deliveries, date, normalize).value == GetDeliveryCount(deliveries, date, normalize) > 0
  {
    var f := FindFirst(deliveries, normalize(date), normalize);
    assert f.Some? ==> deliveries[f.value].count.GetOr(0) >= 0;
  }
}

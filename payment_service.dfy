/** Linking finance transactions to payouts (the payment service).
    A transaction's statement ("21 Oct 2024 - 21 Oct 2024") and a payout's
    statement number ("MY4NA1T7CK-2024-1021") are both reduced to the key
    "2024-1021"; each payout then receives the transactions with its key.
    The one `time.Parse` layout the service uses, "2 Jan 2006", is modelled
    by an explicit parser. */
module PaymentService {

  import opened Wrappers
  import opened Text
  import opened Seqs

  datatype Transaction = Transaction(
    transactionDate: string, orderNo: string, amount: string, paidStatus: string,
    whtAmount: string, vatInAmount: string, transactionNumber: string, statement: string)

  datatype Payout = Payout(
    subtotal1: string, subtotal2: string, shipmentFeeCredit: string, payout: string,
    itemRevenue: string, otherRevenueTotal: string, feesTotal: string, refunds: string,
    guaranteeDeposit: string, feesOnRefundsTotal: string, statementNumber: string,
    shipmentFee: string, createdAt: string, updatedAt: string,
    transactions: seq<Transaction>)

  // ---- strings.Split(statement, " - ")[0] ----

  const StatementSeparator: string := " - "

  /** " - " occurs in `s` at index `q`. */
  predicate SeparatorAt(s: string, q: nat) {
    q + 3 <= |s| && s[q] == ' ' && s[q + 1] == '-' && s[q + 2] == ' '
  }

  /** Index of the first " - " in `s` at or after `i`. */
  function SeparatorFrom(s: string, i: nat): (r: Option<nat>)
    requires i <= |s|
    ensures r.Some? ==> i <= r.value && SeparatorAt(s, r.value)
    ensures r.Some? ==> forall q :: i <= q < r.value ==> !SeparatorAt(s, q)
    ensures r.None? ==> forall q :: i <= q ==> !SeparatorAt(s, q)
    decreases |s| - i
  {
    if i + 3 > |s| then None
    else if SeparatorAt(s, i) then Some(i)
    else SeparatorFrom(s, i + 1)
  }

  /** The first element of `strings.Split(s, " - ")`: the text before the
      first separator, or all of `s`. */
  function FirstField(s: string): (r: string)
    ensures r == s || (|r| < |s| && r == s[..|r|] && SeparatorAt(s, |r|))
    ensures forall q: nat :: q + 3 <= |r| ==> !SeparatorAt(s, q)
  {
    match SeparatorFrom(s, 0)
    case None => s
    case Some(i) => s[..i]
  }

  // ---- time.Parse("2 Jan 2006", ...) ----

  datatype Date = Date(year: nat, month: nat, day: nat)

  const MonthNames: seq<string> :=
    ["Jan", "Feb", "Mar", "Apr", "May", "Jun", "Jul", "Aug", "Sep", "Oct", "Nov", "Dec"]

  function AsciiLower(c: char): char {
    if 'A' <= c <= 'Z' then (c as int + 32) as char else c
  }

  /** Go's case-insensitive comparison of three letters against a month name. */
  predicate MatchFold(a: string, b: string)
    requires |a| == 3 && |b| == 3
  {
    AsciiLower(a[0]) == AsciiLower(b[0]) && AsciiLower(a[1]) == AsciiLower(b[1])
    && AsciiLower(a[2]) == AsciiLower(b[2])
  }

  /** The first month from index `i` on whose abbreviation matches `p`,
      ignoring case (1-based). */
  function LookupMonthFrom(p: string, i: nat): (r: Option<nat>)
    requires |p| == 3 && i <= 12
    ensures r.Some? ==> i < r.value <= 12 && MatchFold(p, MonthNames[r.value - 1])
    ensures r.None? ==> forall j :: i <= j < 12 ==> !MatchFold(p, MonthNames[j])
    decreases 12 - i
  {
    if i == 12 then None
    else if MatchFold(p, MonthNames[i]) then Some(i + 1)
    else LookupMonthFrom(p, i + 1)
  }

  function StripSpaces(s: string): (r: string)
    ensures |r| <= |s| && r == s[|s| - |r|..]
    ensures r == [] || r[0] != ' '
  {
    if s != [] && s[0] == ' ' then StripSpaces(s[1..]) else s
  }

  /** A space in the layout: the value must be empty or start with a space,
      and the whole run of leading spaces is consumed. */
  function SkipLayoutSpace(s: string): Option<string> {
    if s != [] && s[0] != ' ' then None else Some(StripSpaces(s))
  }

  predicate IsLeap(year: nat) {
    year % 4 == 0 && (year % 100 != 0 || year % 400 == 0)
  }

  function DaysIn(month: nat, year: nat): nat
    requires 1 <= month <= 12
  {
    if month == 2 then (if IsLeap(year) then 29 else 28)
    else if month == 4 || month == 6 || month == 9 || month == 11 then 30
    else 31
  }

  predicate ValidDate(d: Date) {
    1 <= d.month <= 12 && 1 <= d.day <= DaysIn(d.month, d.year) && d.year <= 9999
  }

  /** Go's `getnum` for the day: one digit, or two when the second
      character is also a digit. */
  function ParseDay(s: string): (r: Option<(nat, string)>)
    ensures r.Some? ==> r.value.0 < 100 && |r.value.1| < |s| && r.value.1 == s[|s| - |r.value.1|..]
  {
    if s == [] || !IsDigit(s[0]) then None
    else if |s| >= 2 && IsDigit(s[1]) then Some((DigitValue(s[0]) * 10 + DigitValue(s[1]), s[2..]))
    else Some((DigitValue(s[0]), s[1..]))
  }

  /** A month abbreviation in any letter case (1-based). */
  function ParseMonth(s: string): (r: Option<(nat, string)>)
    ensures r.Some? ==> 1 <= r.value.0 <= 12 && |s| >= 3 && r.value.1 == s[3..]
  {
    if |s| < 3 then None
    else
      match LookupMonthFrom(s[..3], 0)
      case None => None
      case Some(month) => Some((month, s[3..]))
  }

  /** Exactly four digits: `2006` is the last element of the layout, so
      nothing may follow. */
  function ParseYear(s: string): (r: Option<nat>)
    ensures r.Some? ==> r.value < 10000
  {
    if |s| != 4 || !AllDigits(s) then None
    else Some(DigitValue(s[0]) * 1000 + DigitValue(s[1]) * 100 + DigitValue(s[2]) * 10 + DigitValue(s[3]))
  }

  /** Parses `s` with layout "2 Jan 2006": day, a space run, month, a
      space run, year; the day must exist in that month of that year. */
  function ParseStatementDate(s: string): (r: Option<Date>)
    ensures r.Some? ==> ValidDate(r.value)
  {
    match ParseDay(s)
    case None => None
    case Some((day, afterDay)) =>
      match SkipLayoutSpace(afterDay)
      case None => None
      case Some(atMonth) =>
        match ParseMonth(atMonth)
        case None => None
        case Some((month, afterMonth)) =>
          match SkipLayoutSpace(afterMonth)
          case None => None
          case Some(atYear) =>
            match ParseYear(atYear)
            case None => None
            case Some(year) =>
              if day < 1 || day > DaysIn(month, year) then None
              else Some(Date(year, month, day))
  }

  // ---- date.Format("2006-0102") ----

  function Pad2(n: nat): (r: string)
    requires n < 100
    ensures |r| == 2 && AllDigits(r)
  {
    [DigitChar(n / 10), DigitChar(n % 10)]
  }

  function Pad4(n: nat): (r: string)
    requires n < 10000
    ensures |r| == 4 && AllDigits(r)
  {
    Pad2(n / 100) + Pad2(n % 100)
  }

  /** The common key "YYYY-MMDD". */
  function DateKey(d: Date): (r: string)
    requires ValidDate(d)
  {
    Pad4(d.year) + "-" + Pad2(d.month) + Pad2(d.day)
  }

  /** Shape of a key: nine characters, '-' at index 4, digits elsewhere. */
  predicate IsKeyShaped(r: string) {
    |r| == 9 && r[4] == '-' && AllDigits(r[..4]) && AllDigits(r[5..])
  }

  /** `ExtractDateFromStatement`: the key of the statement's first date, or
      "" when that text does not parse. */
  function ExtractDateFromStatement(statement: string): (r: string)
    ensures r == "" || IsKeyShaped(r)
    ensures r == "" <==> ParseStatementDate(FirstField(statement)).None?
  {
    match ParseStatementDate(FirstField(statement))
    case None => ""
    case Some(d) =>
      DateKeyShaped(d);
      DateKey(d)
  }

  lemma DateKeyShaped(d: Date)
    requires ValidDate(d)
    ensures IsKeyShaped(DateKey(d))
  {
    var k := DateKey(d);
    assert k[..4] == Pad4(d.year) && k[5..] == Pad2(d.month) + Pad2(d.day);
  }

  // ---- regexp `\d{4}-\d{4}` ----

  predicate MatchesAt(s: string, p: nat) {
    p + 9 <= |s| && IsDigit(s[p]) && IsDigit(s[p + 1]) && IsDigit(s[p + 2]) && IsDigit(s[p + 3])
    && s[p + 4] == '-' && IsDigit(s[p + 5]) && IsDigit(s[p + 6]) && IsDigit(s[p + 7]) && IsDigit(s[p + 8])
  }

  /** Leftmost match at or after `i`, or "". */
  function FindKeyFrom(s: string, i: nat): (r: string)
    ensures r == "" <==> forall p: nat :: i <= p ==> !MatchesAt(s, p)
    ensures r != "" ==> exists p: nat :: i <= p && MatchesAt(s, p) && r == s[p..p + 9]
                                         && forall q: nat :: i <= q < p ==> !MatchesAt(s, q)
    decreases |s| - i
  {
    if i + 9 > |s| then ""
    else if MatchesAt(s, i) then s[i..i + 9]
    else FindKeyFrom(s, i + 1)
  }

  /** `ExtractDateFromStatementNumber`: the leftmost substring that is four
      digits, '-', four digits; "" when there is none. */
  function ExtractDateFromStatementNumber(statementNumber: string): (r: string)
    ensures r == "" <==> forall p: nat :: !MatchesAt(statementNumber, p)
    ensures r != "" ==> IsKeyShaped(r)
    ensures r != "" ==> exists p: nat :: MatchesAt(statementNumber, p) && r == statementNumber[p..p + 9]
                                         && forall q: nat :: q < p ==> !MatchesAt(statementNumber, q)
  {
    var r := FindKeyFrom(statementNumber, 0);
    MatchIsKeyShaped(statementNumber, r);
    r
  }

  lemma MatchIsKeyShaped(s: string, r: string)
    requires r != "" ==> exists p: nat :: MatchesAt(s, p) && r == s[p..p + 9]
    ensures r != "" ==> IsKeyShaped(r)
  {
    if r != "" {
      var p: nat :| MatchesAt(s, p) && r == s[p..p + 9];
      assert r[..4] == s[p..p + 4] && r[5..] == s[p + 5..p + 9];
    }
  }

  // ---- properties of the two extractors ----

  /** The text after the first " - " is never looked at. The first part
      may hold no '-' at all: otherwise a first part such as "a -" would
      put an earlier " - " across the joint ("a -" + " - " starts one at
      index 1), and the first field would be shorter than that part. A
      rendered date ("21 Oct 2024") has no '-', so the statements the
      service reads meet this. */
  lemma StatementUsesFirstDate(first: string, rest: string)
    requires forall i :: 0 <= i < |first| ==> first[i] != '-'
    ensures ExtractDateFromStatement(first + StatementSeparator + rest) == ExtractDateFromStatement(first)
  {
    var s := first + StatementSeparator + rest;
    assert SeparatorAt(s, |first|);
    assert forall q: nat :: q < |first| ==> !SeparatorAt(s, q);
    assert !SeparatorAt(first, 0) && SeparatorFrom(first, 0).None?;
    assert FirstField(first) == first;
    assert FirstField(s) == s[..|first|] == first;
  }

  /** The text a statement carries for a date: day without padding, the
      month abbreviation, four-digit year. */
  function RenderStatementDate(d: Date): string
    requires ValidDate(d)
  {
    NatToDecimal(d.day) + " " + MonthNames[d.month - 1] + " " + Pad4(d.year)
  }

  predicate IsLetters(s: string) {
    forall i :: 0 <= i < |s| ==> 'A' <= s[i] <= 'z'
  }

  lemma MonthNameLetters(m: nat)
    requires 1 <= m <= 12
    ensures |MonthNames[m - 1]| == 3
    ensures IsLetters(MonthNames[m - 1])
  {
  }

  /** No two month names match each other under case folding. */
  lemma MonthNamesDistinct(i: nat, j: nat)
    requires i < 12 && j < 12 && i != j
    ensures !MatchFold(MonthNames[i], MonthNames[j])
  {
  }

  lemma {:induction false} LookupRenderedMonth(m: nat, i: nat)
    requires 1 <= m <= 12 && i <= m - 1
    ensures LookupMonthFrom(MonthNames[m - 1], i) == Some(m)
    decreases m - 1 - i
  {
    if i < m - 1 {
      MonthNamesDistinct(m - 1, i);
      LookupRenderedMonth(m, i + 1);
    }
  }

  lemma StripOneSpace(t: string)
    requires t == [] || t[0] != ' '
    ensures SkipLayoutSpace(" " + t) == Some(t)
  {
    assert (" " + t)[1..] == t;
    assert StripSpaces(t) == t;
  }

  lemma ParseRenderedDay(day: nat, tail: string)
    requires 1 <= day <= 31
    requires tail != [] && tail[0] == ' '
    ensures ParseDay(NatToDecimal(day) + tail) == Some((day, tail))
  {
    var s := NatToDecimal(day) + tail;
    if day < 10 {
      assert s == [DigitChar(day)] + tail;
      DigitRoundTrip(day);
      assert s[0] == DigitChar(day) && s[1] == ' ' && s[1..] == tail;
    } else {
      var hi, lo := day / 10, day % 10;
      assert NatToDecimal(day) == [DigitChar(hi), DigitChar(lo)];
      assert s == [DigitChar(hi), DigitChar(lo)] + tail;
      DigitRoundTrip(hi);
      DigitRoundTrip(lo);
      assert s[0] == DigitChar(hi) && s[1] == DigitChar(lo) && s[2..] == tail;
    }
  }

  lemma ParseRenderedMonth(m: nat, tail: string)
    requires 1 <= m <= 12
    ensures ParseMonth(MonthNames[m - 1] + tail) == Some((m, tail))
  {
    var s := MonthNames[m - 1] + tail;
    MonthNameLetters(m);
    assert s[..3] == MonthNames[m - 1] && s[3..] == tail;
    LookupRenderedMonth(m, 0);
  }

  lemma ParseRenderedYear(y: nat)
    requires y < 10000
    ensures ParseYear(Pad4(y)) == Some(y)
  {
    var hi, lo := y / 100, y % 100;
    assert y == 100 * hi + lo;
    assert hi == 10 * (hi / 10) + hi % 10;
    assert lo == 10 * (lo / 10) + lo % 10;
    var p := Pad4(y);
    assert p == [DigitChar(hi / 10), DigitChar(hi % 10), DigitChar(lo / 10), DigitChar(lo % 10)];
    DigitRoundTrip(hi / 10);
    DigitRoundTrip(hi % 10);
    DigitRoundTrip(lo / 10);
    DigitRoundTrip(lo % 10);
  }

  /** Parsing the rendered text gives the date back: the parser accepts
      every statement date the marketplace writes. */
  lemma ParseRenderedDate(d: Date)
    requires ValidDate(d)
    ensures ParseStatementDate(RenderStatementDate(d)) == Some(d)
  {
    var name := MonthNames[d.month - 1];
    MonthNameLetters(d.month);
    var year := Pad4(d.year);
    var afterMonth := " " + year;
    var atMonth := name + afterMonth;
    var afterDay := " " + atMonth;
    assert RenderStatementDate(d) == NatToDecimal(d.day) + afterDay;
    ParseRenderedDay(d.day, afterDay);
    StripOneSpace(atMonth);
    ParseRenderedMonth(d.month, afterMonth);
    StripOneSpace(year);
    ParseRenderedYear(d.year);
  }

  /** A transaction statement "D Mon YYYY - ..." yields the key of its first date. */
  lemma StatementKeyOfRenderedDate(d: Date, rest: string)
    requires ValidDate(d)
    ensures ExtractDateFromStatement(RenderStatementDate(d) + StatementSeparator + rest) == DateKey(d)
  {
    var first := RenderStatementDate(d);
    var dayText := NatToDecimal(d.day);
    NatToDecimalDigits(d.day);
    MonthNameLetters(d.month);
    forall i | 0 <= i < |first| ensures first[i] != '-' {
      if i < |dayText| {
        assert first[i] == dayText[i];
      } else if |dayText| < i < |dayText| + 4 {
        assert first[i] == MonthNames[d.month - 1][i - |dayText| - 1];
      } else if i > |dayText| + 4 {
        assert first[i] == Pad4(d.year)[i - |dayText| - 5];
      }
    }
    StatementUsesFirstDate(first, rest);
    ParseRenderedDate(d);
  }

  lemma ExampleYear()
    ensures Pad4(2024) == "2024"
  {
    assert Pad2(20) == "20";
    assert Pad2(24) == "24";
  }

  lemma ExampleDate()
    ensures ValidDate(Date(2024, 10, 21))
    ensures RenderStatementDate(Date(2024, 10, 21)) == "21 Oct 2024"
    ensures DateKey(Date(2024, 10, 21)) == "2024-1021"
  {
    ExampleYear();
    assert NatToDecimal(21) == "21" by {
      assert NatToDecimal(2) == "2";
    }
    assert Pad2(10) == "10" && Pad2(21) == "21";
  }

  lemma DocumentedStatement(s: string)
    requires s == "21 Oct 2024 - 21 Oct 2024"
    ensures ExtractDateFromStatement(s) == "2024-1021"
  {
    var d := Date(2024, 10, 21);
    ExampleDate();
    assert s[..11] == RenderStatementDate(d);
    assert s[11..14] == StatementSeparator;
    assert s == s[..11] + s[11..14] + s[14..];
    StatementKeyOfRenderedDate(d, s[14..]);
  }

  /** A match with none to its left is the extracted key. */
  lemma LeftmostMatch(s: string, p: nat)
    requires MatchesAt(s, p)
    requires forall q: nat :: q < p ==> !MatchesAt(s, q)
    ensures ExtractDateFromStatementNumber(s) == s[p..p + 9]
  {
    var r := ExtractDateFromStatementNumber(s);
    assert r != "";
    var p': nat :| MatchesAt(s, p') && r == s[p'..p' + 9] && forall q: nat :: q < p' ==> !MatchesAt(s, q);
  }

  lemma DocumentedStatementNumber(s: string)
    requires s == "MY4NA1T7CK-2024-1021"
    ensures ExtractDateFromStatementNumber(s) == "2024-1021"
  {
    assert MatchesAt(s, 11) && s[11..20] == "2024-1021";
    forall q: nat | q < 11 ensures !MatchesAt(s, q) {
      if q != 6 {
        assert s[q + 4] != '-';
      } else {
        assert !IsDigit(s[q]);
      }
    }
    LeftmostMatch(s, 11);
  }

  /** The documented pair: the transaction statement and the payout
      statement number yield the same key, "2024-1021". */
  lemma DocumentedPairLinks()
    ensures ExtractDateFromStatement("21 Oct 2024 - 21 Oct 2024") == "2024-1021"
    ensures ExtractDateFromStatementNumber("MY4NA1T7CK-2024-1021") == "2024-1021"
  {
    DocumentedStatement("21 Oct 2024 - 21 Oct 2024");
    DocumentedStatementNumber("MY4NA1T7CK-2024-1021");
  }

  // ---- assigning transactions to payouts ----

  /** The key of a transaction: that of its statement. */
  function StatementKey(t: Transaction): string {
    ExtractDateFromStatement(t.statement)
  }

  /** The transactions, in input order, whose statement key is `key`. An
      unparseable statement (key "") never matches. */
  function Matching(ts: seq<Transaction>, key: string): seq<Transaction> {
    WithKey(ts, StatementKey, key)
  }

  /** A transaction whose statement does not parse goes to no payout, and a
      payout whose number holds no key receives nothing. */
  lemma UnmatchedGoNowhere(ts: seq<Transaction>, t: Transaction, payout: Payout)
    requires ExtractDateFromStatement(t.statement) == ""
    ensures t !in Matching(ts, ExtractDateFromStatementNumber(payout.statementNumber))
    ensures ExtractDateFromStatementNumber(payout.statementNumber) == "" ==>
              Matching(ts, ExtractDateFromStatementNumber(payout.statementNumber)) == []
  {
    WithKeyMembers(ts, StatementKey, ExtractDateFromStatementNumber(payout.statementNumber), t);
    WithEmptyKey(ts, StatementKey);
  }

  /** A payout after assignment: its own transactions, then the matching ones. */
  function Assigned(p: Payout, ts: seq<Transaction>): Payout {
    p.(transactions := p.transactions + Matching(ts, ExtractDateFromStatementNumber(p.statementNumber)))
  }

  /** Looking a payout's key up in the grouping gives its assignment. */
  lemma AssignedFromGrouping(p: Payout, groups: map<string, seq<Transaction>>, ts: seq<Transaction>, key: string)
    requires IsGrouping(groups, ts, StatementKey)
    requires key == ExtractDateFromStatementNumber(p.statementNumber)
    ensures key in groups ==> Assigned(p, ts) == p.(transactions := p.transactions + groups[key])
    ensures key !in groups ==> Assigned(p, ts) == p
  {
    if key !in groups {
      assert p.transactions + Matching(ts, key) == p.transactions;
    }
  }

  /** The first `n` payouts of `after` are those of `before` with their
      transactions assigned; the rest are unchanged. */
  ghost predicate AssignedUpTo(before: seq<Payout>, after: seq<Payout>, ts: seq<Transaction>, n: nat)
    requires n <= |before| == |after|
  {
    (forall j :: 0 <= j < n ==> after[j] == Assigned(before[j], ts))
    && (forall j :: n <= j < |after| ==> after[j] == before[j])
  }

  /** `AssignPaymentDataToPayout`: groups the transactions by statement key,
      then appends each payout's group to its transactions in place. */
  method AssignPaymentDataToPayout(payouts: array<Payout>, transactions: seq<Transaction>)
    modifies payouts
    ensures AssignedUpTo(old(payouts[..]), payouts[..], transactions, payouts.Length)
  {
    var statementNumberMap := GroupByKey(transactions, StatementKey);
    for i := 0 to payouts.Length
      invariant AssignedUpTo(old(payouts[..]), payouts[..], transactions, i)
    {
      ghost var before := payouts[..];
      var key := ExtractDateFromStatementNumber(payouts[i].statementNumber);
      AssignedFromGrouping(payouts[i], statementNumberMap, transactions, key);
      if key in statementNumberMap {
        var data := statementNumberMap[key];
        payouts[i] := payouts[i].(transactions := payouts[i].transactions + data);
      }
      assert payouts[..] == before[i := Assigned(before[i], transactions)];
    }
  }

  /** Assignment adds only matching transactions: every transaction a payout
      gains carries that payout's key, and the key is never "". */
  lemma AssignedGainsOnlyMatches(p: Payout, ts: seq<Transaction>, t: Transaction)
    requires t in Assigned(p, ts).transactions[|p.transactions|..]
    ensures t in ts
    ensures ExtractDateFromStatementNumber(p.statementNumber) != ""
    ensures ExtractDateFromStatement(t.statement) == ExtractDateFromStatementNumber(p.statementNumber)
  {
    assert Assigned(p, ts).transactions[|p.transactions|..] == Matching(ts, ExtractDateFromStatementNumber(p.statementNumber));
    WithKeyMembers(ts, StatementKey, ExtractDateFromStatementNumber(p.statementNumber), t);
  }

  // ---- empty-result normalisation ----

  /** `GetTransactions`: a repository error is passed on; a nil response or
      an empty list becomes an empty, non-nil list. */
  function GetTransactions(fetched: Result<Option<GoSlice<Transaction>>>): (r: Result<GoSlice<Transaction>>)
    ensures fetched.Err? <==> r.Err?
    ensures r.Err? ==> r.msg == fetched.msg
    ensures r.Ok? ==> r.value.Slice?
    ensures r.Ok? && fetched.value.Some? ==> r.value.elems == fetched.value.value.Elems()
    ensures r.Ok? && fetched.value.None? ==> r.value.elems == []
  {
    match fetched
    case Err(e) => Err(e)
    case Ok(None) => Ok(Slice([]))
    case Ok(Some(list)) => if |list.Elems()| == 0 then Ok(Slice([])) else Ok(list)
  }

  /** `GetPayouts`: the same normalisation for payouts. */
  function GetPayouts(fetched: Result<Option<GoSlice<Payout>>>): (r: Result<GoSlice<Payout>>)
    ensures fetched.Err? <==> r.Err?
    ensures r.Err? ==> r.msg == fetched.msg
    ensures r.Ok? ==> r.value.Slice?
    ensures r.Ok? && fetched.value.Some? ==> r.value.elems == fetched.value.value.Elems()
    ensures r.Ok? && fetched.value.None? ==> r.value.elems == []
  {
    match fetched
    case Err(e) => Err(e)
    case Ok(None) => Ok(Slice([]))
    case Ok(Some(list)) => if |list.Elems()| == 0 then Ok(Slice([])) else Ok(list)
  }
}

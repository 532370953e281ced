/** The text of a dynamic KHQR and reading it back: tag-length-value fields,
    nested templates, and the closing checksum. */
module Khqr {
  import opened Crc

  datatype Result<+T> = Ok(value: T) | Err(error: Error) {
    predicate IsFailure() { Err? }
    function PropagateFailure<U>(): Result<U> requires Err? { Err(error) }
    function Extract(): T requires Ok? { value }
  }

  datatype Error =
    | FieldTooLong(tag: string)
    | UnknownCurrency
    | BadAccount
    | NoAmount
    | NoLatinName
    | BadLength       // a length that is not two decimal digits, while parsing

  // ---- Numbers as text ------------------------------------------------------

  function Digit(d: nat): char
    requires d < 10
  {
    ('0' as int + d) as char
  }

  function DigitValue(c: char): (d: int)
    ensures -1 <= d < 10
    ensures d >= 0 ==> Digit(d) == c
  {
    if '0' <= c <= '9' then c as int - '0' as int else -1
  }

  /** str(n) */
  function Decimal(n: nat): (text: string)
    ensures 0 < |text|
    ensures forall i :: 0 <= i < |text| ==> 0 <= DigitValue(text[i])
    ensures 0 < n ==> text[0] != '0'
  {
    if n < 10 then [Digit(n)] else Decimal(n / 10) + [Digit(n % 10)]
  }

  /** int(text), for decimal digits; -1 for any other text. */
  function ReadDecimal(text: string): (n: int)
    ensures -1 <= n
  {
    if text == [] then -1
    else if |text| == 1 then DigitValue(text[0])
    else
      var front, last := ReadDecimal(text[..|text| - 1]), DigitValue(text[|text| - 1]);
      if front < 0 || last < 0 then -1 else 10 * front + last
  }

  lemma {:induction false} ReadBack(n: nat)
    ensures ReadDecimal(Decimal(n)) == n
  {
    if 10 <= n {
      ReadBack(n / 10);
      assert Decimal(n)[..|Decimal(n)| - 1] == Decimal(n / 10);
    }
  }

  /** f"{n:02d}" */
  function TwoDigits(n: nat): (text: string)
    requires n <= 99
    ensures |text| == 2
  {
    [Digit(n / 10), Digit(n % 10)]
  }

  lemma TwoDigitsReadBack(n: nat)
    requires n <= 99
    ensures ReadDecimal(TwoDigits(n)) == n
  {
    assert TwoDigits(n)[..1] == [Digit(n / 10)];
  }

  // ---- Fields ---------------------------------------------------------------

  function Field(tag: string, value: string): Result<string> {
    if |value| > 99 then Err(FieldTooLong(tag)) else Ok(tag + TwoDigits(|value|) + value)
  }

  function Min(a: int, b: int): int {
    if a < b then a else b
  }

  /** Python's payload[i:j], which clips instead of failing. */
  function Slice(s: string, i: nat, j: nat): string
    requires i <= j
  {
    s[Min(i, |s|)..Min(j, |s|)]
  }

  /** The tags still to be read from `payload`, added to those read before it. */
  function ParseOnto(fields: map<string, string>, payload: string): Result<map<string, string>>
    decreases |payload|
  {
    if payload == [] then Ok(fields)
    else
      var length := ReadDecimal(Slice(payload, 2, 4));
      if length < 0 then Err(BadLength)
      else ParseOnto(
        fields[Slice(payload, 0, 2) := Slice(payload, 4, 4 + length)],
        payload[Min(4 + length, |payload|)..])
  }

  function ParseText(payload: string): Result<map<string, string>> {
    ParseOnto(map[], payload)
  }

  lemma SliceOfRest(s: string, i: nat, j: nat, k: nat)
    requires i <= |s| && j <= k
    ensures Slice(s[i..], j, k) == Slice(s, i + j, i + k)
  {
  }

  /** What is left to read from position `i`. */
  ghost function Rest(s: string, i: nat): string {
    s[Min(i, |s|)..]
  }

  lemma RestOfRest(s: string, i: nat, j: nat)
    requires i <= |s|
    ensures Rest(Rest(s, i), j) == Rest(s, i + j)
  {
    if j <= |s| - i {
      assert s[i..][j..] == s[i + j..];
    } else {
      assert s[i..][|s| - i..] == [] == s[|s|..];
    }
  }

  /** The tag and the length that the loop below reads from position `i`. */
  ghost predicate ReadsAt(payload: string, i: nat, tag: string, length: int)
  {
    tag == Slice(payload, i, i + 2) && length == ReadDecimal(Slice(payload, i + 2, i + 4))
  }

  lemma ReadsRest(payload: string, i: nat, tag: string, length: int)
    requires i < |payload| && ReadsAt(payload, i, tag, length)
    ensures ReadsAt(Rest(payload, i), 0, tag, length)
  {
    SliceOfRest(payload, i, 0, 2);
    SliceOfRest(payload, i, 2, 4);
  }

  /** One turn of the loop that ends it. */
  lemma ParseFails(fields: map<string, string>, payload: string, i: nat, tag: string, length: int)
    requires i < |payload| && ReadsAt(payload, i, tag, length) && length < 0
    ensures ParseOnto(fields, Rest(payload, i)) == Err(BadLength)
  {
    ReadsRest(payload, i, tag, length);
  }

  /** Any other turn. */
  lemma ParseTurn(fields: map<string, string>, payload: string, i: nat, tag: string, length: nat)
    requires i < |payload| && ReadsAt(payload, i, tag, length)
    ensures ParseOnto(fields, Rest(payload, i))
         == ParseOnto(fields[tag := Slice(payload, i + 4, i + 4 + length)], Rest(payload, i + 4 + length))
  {
    ReadsRest(payload, i, tag, length);
    SliceOfRest(payload, i, 4, 4 + length);
    RestOfRest(payload, i, 4 + length);
  }

  /** The loop over a position in the text. */
  method Parse(payload: string) returns (r: Result<map<string, string>>)
    ensures r == ParseText(payload)
  {
    var fields: map<string, string>, i := map[], 0;
    assert Rest(payload, 0) == payload;
    while i < |payload|
      invariant 0 <= i
      invariant ParseOnto(fields, Rest(payload, i)) == ParseText(payload)
      decreases |payload| - i
    {
      var tag, length := Slice(payload, i, i + 2), ReadDecimal(Slice(payload, i + 2, i + 4));
      if length < 0 {
        ParseFails(fields, payload, i, tag, length);
        return Err(BadLength);
      }
      ParseTurn(fields, payload, i, tag, length);
      fields := fields[tag := Slice(payload, i + 4, i + 4 + length)];
      i := i + 4 + length;
    }
    assert Rest(payload, i) == [];
    r := Ok(fields);
  }

  // ---- Printing a list of fields and reading it back ------------------------

  type Tagged = (string, string)

  ghost predicate Printable(fs: seq<Tagged>)
  {
    forall i :: 0 <= i < |fs| ==> |fs[i].0| == 2 && |fs[i].1| <= 99
  }

  /** The concatenation of `Field` over a list. */
  function Print(fs: seq<Tagged>): string
    requires Printable(fs)
  {
    if fs == [] then [] else fs[0].0 + TwoDigits(|fs[0].1|) + fs[0].1 + Print(fs[1..])
  }

  function Onto(fields: map<string, string>, fs: seq<Tagged>): map<string, string>
    decreases fs
  {
    if fs == [] then fields else Onto(fields[fs[0].0 := fs[0].1], fs[1..])
  }

  /** Round trip: reading printed fields back gives the map from tag to value;
      a repeated tag keeps its last value. */
  lemma {:induction false} ParsePrinted(fields: map<string, string>, fs: seq<Tagged>)
    requires Printable(fs)
    ensures ParseOnto(fields, Print(fs)) == Ok(Onto(fields, fs))
    decreases fs
  {
    if fs != [] {
      var (tag, value) := fs[0];
      var text := Print(fs);
      TwoDigitsReadBack(|value|);
      assert text[0..2] == tag && text[2..4] == TwoDigits(|value|) && text[4..4 + |value|] == value;
      assert text[4 + |value|..] == Print(fs[1..]);
      ParsePrinted(fields[tag := value], fs[1..]);
    }
  }

  ghost predicate DistinctTags(fs: seq<Tagged>)
  {
    forall i, j :: 0 <= i < j < |fs| ==> fs[i].0 != fs[j].0
  }

  /** With distinct tags the map is exactly the list. */
  lemma {:induction false} OntoIsExact(fields: map<string, string>, fs: seq<Tagged>)
    requires DistinctTags(fs)
    ensures forall t :: t in Onto(fields, fs) <==> t in fields || exists i :: 0 <= i < |fs| && fs[i].0 == t
    ensures forall i :: 0 <= i < |fs| ==> Onto(fields, fs)[fs[i].0] == fs[i].1
    ensures forall t :: t in fields && (forall i :: 0 <= i < |fs| ==> fs[i].0 != t) ==> Onto(fields, fs)[t] == fields[t]
    decreases fs
  {
    if fs != [] {
      var more := fields[fs[0].0 := fs[0].1];
      OntoIsExact(more, fs[1..]);
      forall t
        ensures t in Onto(fields, fs) <==> t in fields || exists i :: 0 <= i < |fs| && fs[i].0 == t
      {
        if i :| 0 <= i < |fs| && fs[i].0 == t {
          assert i == 0 || fs[1..][i - 1].0 == t;
        }
      }
      forall i | 0 <= i < |fs|
        ensures Onto(fields, fs)[fs[i].0] == fs[i].1
      {
        if i > 0 {
          assert fs[1..][i - 1] == fs[i];
        } else {
          assert forall k :: 0 <= k < |fs[1..]| ==> fs[1..][k].0 != fs[0].0;
        }
      }
    }
  }

  // ---- Amounts --------------------------------------------------------------

  const KHR := "KHR"
  const USD := "USD"

  /** quantize(1, ROUND_HALF_UP), of a positive amount. */
  function RoundHalfUp(amount: real): (n: nat)
    requires 0.0 < amount
    ensures n as real - 0.5 <= amount < n as real + 0.5
  {
    (amount + 0.5).Floor
  }

  function RStrip(text: string, c: char): string {
    if text == [] || text[|text| - 1] != c then text else RStrip(text[..|text| - 1], c)
  }

  function AmountText(amount: real, currency: string): string
    requires 0.0 < amount
  {
    if currency == KHR then Decimal(RoundHalfUp(amount))
    else CentsText(RoundHalfUp(amount * 100.0))
  }

  /** Two decimals, less trailing zeros and a trailing point. */
  function CentsText(cents: nat): string {
    RStrip(RStrip(Decimal(cents / 100) + "." + TwoDigits(cents % 100), '0'), '.')
  }

  /** What an amount text says, in hundredths: digits, or digits, a point and
      one or two more digits. */
  function Hundredths(text: string): (n: int)
  {
    if |text| >= 2 && text[|text| - 2] == '.' then
      100 * ReadDecimal(text[..|text| - 2]) + 10 * DigitValue(text[|text| - 1])
    else if |text| >= 3 && text[|text| - 3] == '.' then
      100 * ReadDecimal(text[..|text| - 3]) + ReadDecimal(text[|text| - 2..])
    else 100 * ReadDecimal(text)
  }

  /** The printed amount is the amount rounded half up to the currency's
      quantum, whatever trailing zeros were dropped. */
  lemma AmountTextDenotes(amount: real, currency: string)
    requires 0.0 < amount
    ensures Hundredths(AmountText(amount, currency))
         == if currency == KHR then 100 * RoundHalfUp(amount) else RoundHalfUp(amount * 100.0)
  {
    if currency == KHR {
      PlainText(RoundHalfUp(amount));
    } else {
      CentsTextDenotes(RoundHalfUp(amount * 100.0));
    }
  }

  lemma CentsTextDenotes(cents: nat)
    ensures Hundredths(CentsText(cents)) == cents
  {
    var whole, d1, d0 := Decimal(cents / 100), Digit(cents % 100 / 10), Digit(cents % 10);
    assert TwoDigits(cents % 100) == [d1, d0];
    ReadBack(cents / 100);
    PlainText(cents / 100);
    if d0 != '0' {
      TwoDecimals(whole, d1, d0);
      TwoDigitsReadBack(cents % 100);
    } else {
      assert whole + "." + [d1, d0] == whole + "." + [d1] + ['0'];
      if d1 != '0' {
        OneDecimal(whole, d1);
      } else {
        NoDecimals(whole);
      }
    }
  }

  lemma TwoDecimals(whole: string, d1: char, d0: char)
    requires d0 != '0' && d0 != '.' && d1 != '.' && whole != ""
    ensures var text := whole + "." + [d1, d0];
            RStrip(RStrip(text, '0'), '.') == text
            && Hundredths(text) == 100 * ReadDecimal(whole) + ReadDecimal([d1, d0])
  {
    var text := whole + "." + [d1, d0];
    assert text[..|text| - 3] == whole && text[|text| - 2..] == [d1, d0];
  }

  lemma OneDecimal(whole: string, d1: char)
    requires d1 != '.' && d1 != '0' && whole != ""
    ensures var text := whole + "." + [d1];
            RStrip(RStrip(text + ['0'], '0'), '.') == text
            && Hundredths(text) == 100 * ReadDecimal(whole) + 10 * DigitValue(d1)
  {
    var text := whole + "." + [d1];
    RStripOne(text, '0', '0');
    assert text[..|text| - 2] == whole;
  }

  lemma NoDecimals(whole: string)
    requires whole != "" && whole[|whole| - 1] != '.'
    ensures RStrip(RStrip(whole + "." + ['0'] + ['0'], '0'), '.') == whole
  {
    RStripOne(whole + "." + ['0'], '0', '0');
    RStripOne(whole + ".", '0', '0');
    RStripOne(whole, '.', '.');
  }

  lemma RStripOne(text: string, last: char, c: char)
    ensures RStrip(text + [last], c) == if last == c then RStrip(text, c) else text + [last]
  {
    assert (text + [last])[..|text|] == text;
  }

  lemma PlainText(n: nat)
    ensures Hundredths(Decimal(n)) == 100 * n
    ensures Decimal(n)[|Decimal(n)| - 1] != '.'
  {
    ReadBack(n);
    assert DigitValue('.') == -1;
  }

  // ---- Building a code ------------------------------------------------------

  const NAME_LIMIT := 25
  const CITY_LIMIT := 15
  const BILL_LIMIT := 25
  const MERCHANT_CATEGORY := "5999"

  /** The keyword arguments of `build`. An empty text or a zero time is an
      absent one, which the program treats alike. */
  datatype Request = Request(
    accountId: string, merchantName: string, merchantCity: string,
    amount: real, currency: string, billNumber: string,
    merchantId: string, acquiringBank: string,
    expiresAtMs: nat, createdAtMs: nat)

  function Latin(text: string): string {
    if text == [] then []
    else (if 32 <= text[0] as int < 127 then [text[0]] else []) + Latin(text[1..])
  }

  function LStrip(text: string): string {
    if text == [] || text[0] != ' ' then text else LStrip(text[1..])
  }

  function Ascii(text: string, limit: nat): (r: string)
    ensures |r| <= limit
  {
    Slice(RStrip(LStrip(Latin(text)), ' '), 0, limit)
  }

  function CurrencyCode(currency: string): string {
    if currency == KHR then "116" else "840"
  }

  /** The concatenation of `_field` calls: the first that does not fit raises. */
  function Join(fs: seq<Tagged>): (r: Result<string>)
    requires forall i :: 0 <= i < |fs| ==> |fs[i].0| == 2
    ensures r.Ok? <==> Printable(fs)
    ensures r.Ok? ==> r.value == Print(fs)
  {
    if fs == [] then Ok([])
    else
      var first :- Field(fs[0].0, fs[0].1);
      var rest :- Join(fs[1..]);
      Ok(first + rest)
  }

  /** Individual accounts use template 29; a bank-registered merchant, 30. */
  function AccountTag(q: Request): string {
    if q.merchantId != "" then "30" else "29"
  }

  function AccountFields(q: Request): seq<Tagged> {
    if q.merchantId != ""
    then [("00", q.accountId), ("01", q.merchantId), ("02", q.acquiringBank)]
    else [("00", q.accountId)]
  }

  function StampFields(q: Request, now: nat): seq<Tagged> {
    var created := if q.createdAtMs != 0 then q.createdAtMs else now;
    if q.expiresAtMs != 0
    then [("00", Decimal(created)), ("01", Decimal(q.expiresAtMs))]
    else [("00", Decimal(created))]
  }

  function BillFields(q: Request): seq<Tagged> {
    [("01", Slice(q.billNumber, 0, BILL_LIMIT))]
  }

  function City(q: Request): string {
    var city := Ascii(q.merchantCity, CITY_LIMIT);
    if city == "" then "Phnom Penh" else city
  }

  function BodyFields(q: Request, account: string, bill: string, stamps: string): seq<Tagged>
    requires 0.0 < q.amount
  {
    [("00", "01"), ("01", "12"), (AccountTag(q), account), ("52", MERCHANT_CATEGORY),
     ("53", CurrencyCode(q.currency)), ("54", AmountText(q.amount, q.currency)), ("58", "KH"),
     ("59", Ascii(q.merchantName, NAME_LIMIT)), ("60", City(q)), ("62", bill), ("99", stamps)]
  }

  function Build(q: Request, now: nat): Result<string> {
    if q.currency != KHR && q.currency != USD then Err(UnknownCurrency)
    else if '@' !in q.accountId then Err(BadAccount)
    else if q.amount <= 0.0 then Err(NoAmount)
    else if Ascii(q.merchantName, NAME_LIMIT) == "" then Err(NoLatinName)
    else
      var account :- Join(AccountFields(q));
      var _ :- Field(AccountTag(q), account);
      var stamps :- Join(StampFields(q, now));
      var bill :- Join(BillFields(q));
      var fields :- Join(BodyFields(q, account, bill, stamps));
      var body := fields + "6304";
      Ok(body + Checksum(Utf8(body)))
  }

  /** str.encode("utf-8") of one character. */
  function Utf8Char(c: char): (bytes: seq<Byte>)
    ensures c as int < 128 ==> |bytes| == 1 && bytes[0] == c as int
  {
    var n := c as int;
    if n < 0x80 then [n]
    else if n < 0x800 then [0xC0 + n / 0x40, 0x80 + n % 0x40]
    else if n < 0x1_0000 then [0xE0 + n / 0x1000, 0x80 + n / 0x40 % 0x40, 0x80 + n % 0x40]
    else [0xF0 + n / 0x4_0000, 0x80 + n / 0x1000 % 0x40, 0x80 + n / 0x40 % 0x40, 0x80 + n % 0x40]
  }

  function Utf8(text: string): seq<Byte> {
    if text == [] then [] else Utf8Char(text[0]) + Utf8(text[1..])
  }

  /** The rule a reader checks a code by: its last four characters are the
      checksum of the bytes before them. */
  ghost predicate Genuine(text: string)
  {
    4 <= |text| && text[|text| - 4..] == Checksum(Utf8(text[..|text| - 4]))
  }

  // ---- Main results ---------------------------------------------------------

  /** When a code can be built, in terms of its inputs only. */
  ghost predicate Buildable(q: Request, now: nat)
  {
    && (q.currency == KHR || q.currency == USD)
    && '@' in q.accountId
    && 0.0 < q.amount
    && (exists c <- q.merchantName :: 32 < c as int < 127)
    && (if q.merchantId == "" then |q.accountId| <= 95
        else |q.accountId| + |q.merchantId| + |q.acquiringBank| <= 87)
    && |AmountText(q.amount, q.currency)| <= 99
    && var created := Decimal(if q.createdAtMs != 0 then q.createdAtMs else now);
       if q.expiresAtMs == 0 then |created| <= 95
       else |created| + |Decimal(q.expiresAtMs)| <= 91
  }

  /** The fields can be printed and the text fits a field itself. */
  ghost predicate Fits(fs: seq<Tagged>)
  {
    Printable(fs) && |Print(fs)| <= 99
  }

  lemma AccountFits(q: Request)
    ensures Fits(AccountFields(q))
       <==> if q.merchantId == "" then |q.accountId| <= 95
            else |q.accountId| + |q.merchantId| + |q.acquiringBank| <= 87
  {
    PrintLength(AccountFields(q));
  }

  lemma StampsFit(q: Request, now: nat)
    ensures var created := Decimal(if q.createdAtMs != 0 then q.createdAtMs else now);
            Fits(StampFields(q, now))
            <==> if q.expiresAtMs == 0 then |created| <= 95 else |created| + |Decimal(q.expiresAtMs)| <= 91
  {
    PrintLength(StampFields(q, now));
  }

  lemma BillFits(q: Request)
    ensures Fits(BillFields(q))
  {
    PrintLength(BillFields(q));
  }

  lemma BuildSucceedsWhen(q: Request, now: nat)
    ensures Build(q, now).Ok? <==> Buildable(q, now)
  {
    NameLeft(q.merchantName, NAME_LIMIT);
    AccountFits(q);
    StampsFit(q, now);
    BillFits(q);
    if Printable(AccountFields(q)) && Printable(StampFields(q, now)) && 0.0 < q.amount {
      BodyPrintable(q, Print(AccountFields(q)), Print(BillFields(q)), Print(StampFields(q, now)));
    }
  }

  lemma BodyPrintable(q: Request, account: string, bill: string, stamps: string)
    requires 0.0 < q.amount
    ensures Printable(BodyFields(q, account, bill, stamps)) <==>
            |account| <= 99 && |AmountText(q.amount, q.currency)| <= 99 && |bill| <= 99 && |stamps| <= 99
  {
    var fs := BodyFields(q, account, bill, stamps);
    if Printable(fs) {
      assert |fs[2].1| <= 99 && |fs[5].1| <= 99 && |fs[9].1| <= 99 && |fs[10].1| <= 99;
    }
  }

  ghost predicate Blank(text: string)
  {
    forall i | 0 <= i < |text| :: text[i] == ' '
  }

  /** `[from, to)` is the text without the spaces around it. */
  ghost predicate Trims(text: string, from: nat, to: nat)
  {
    && from <= to <= |text| && Blank(text[..from]) && Blank(text[to..])
    && (from < to ==> text[from] != ' ' && text[to - 1] != ' ')
  }

  /** Cleaning a name keeps its printable ASCII characters, as often as they
      occur, takes the spaces off both ends and then the first `limit`; something
      is left exactly when the name holds a printable character other than the
      space. */
  lemma LatinNames(text: string, limit: nat) returns (from: nat, to: nat)
    requires 0 < limit
    ensures forall c :: multiset(Latin(text))[c] == if 32 <= c as int < 127 then multiset(text)[c] else 0
    ensures Trims(Latin(text), from, to) && Ascii(text, limit) == Slice(Latin(text)[from..to], 0, limit)
    ensures Ascii(text, limit) != "" <==> exists c <- text :: 32 < c as int < 127
  {
    LatinCounts(text);
    from, to := Trimmed(Latin(text));
    NameLeft(text, limit);
  }

  lemma NameLeft(text: string, limit: nat)
    requires 0 < limit
    ensures Ascii(text, limit) != "" <==> exists c <- text :: 32 < c as int < 127
  {
    LatinKeeps(text);
    LStripKeeps(Latin(text));
    var trimmed := LStrip(Latin(text));
    RStripKeeps(trimmed);
    if Ascii(text, limit) != "" {
      assert trimmed[0] in trimmed && trimmed[0] in Latin(text);
    }
    if c :| c in text && 32 < c as int < 127 {
      assert c in RStrip(trimmed, ' ');
    }
  }

  lemma Trimmed(clean: string) returns (from: nat, to: nat)
    ensures Trims(clean, from, to) && RStrip(LStrip(clean), ' ') == clean[from..to]
  {
    from := LStripAt(clean);
    var n := RStripAt(clean[from..]);
    to := from + n;
    TrimmedBetween(clean, from, n);
  }

  lemma TrimmedBetween(clean: string, from: nat, n: nat)
    requires from <= |clean| && Blank(clean[..from]) && LStrip(clean) == clean[from..]
    requires n <= |clean| - from && Blank(clean[from..][n..])
    requires from < |clean| ==> clean[from] != ' '
    requires 0 < n ==> clean[from..][n - 1] != ' '
    ensures Trims(clean, from, from + n)
    ensures clean[from..][..n] == clean[from..from + n]
  {
    assert clean[from + n..] == clean[from..][n..];
    assert 0 < n ==> clean[from + n - 1] == clean[from..][n - 1];
  }

  lemma {:induction false} LatinCounts(text: string)
    ensures forall c :: multiset(Latin(text))[c] == if 32 <= c as int < 127 then multiset(text)[c] else 0
  {
    if text != [] {
      LatinCounts(text[1..]);
      assert text == [text[0]] + text[1..];
    }
  }

  lemma {:induction false} LStripAt(text: string) returns (from: nat)
    ensures from <= |text| && Blank(text[..from]) && LStrip(text) == text[from..]
    ensures from < |text| ==> text[from] != ' '
  {
    if text == [] || text[0] != ' ' {
      from := 0;
    } else {
      from := LStripAt(text[1..]);
      assert text[..from + 1] == [' '] + text[1..][..from] && text[1..][from..] == text[from + 1..];
      from := from + 1;
    }
  }

  lemma {:induction false} RStripAt(text: string) returns (to: nat)
    ensures to <= |text| && Blank(text[to..]) && RStrip(text, ' ') == text[..to]
    ensures 0 < to ==> text[to - 1] != ' '
  {
    if text == [] || text[|text| - 1] != ' ' {
      to := |text|;
    } else {
      var front := text[..|text| - 1];
      to := RStripAt(front);
      assert text[to..] == front[to..] + [' '] && front[..to] == text[..to];
    }
  }

  lemma {:induction false} LatinKeeps(text: string)
    ensures forall c :: c in Latin(text) <==> c in text && 32 <= c as int < 127
  {
    if text != [] {
      LatinKeeps(text[1..]);
      assert text == [text[0]] + text[1..];
    }
  }

  lemma {:induction false} LStripKeeps(text: string)
    ensures forall c | c != ' ' :: c in LStrip(text) <==> c in text
    ensures LStrip(text) != "" ==> LStrip(text)[0] != ' '
  {
    if text != [] && text[0] == ' ' {
      LStripKeeps(text[1..]);
      assert text == [text[0]] + text[1..];
    }
  }

  lemma {:induction false} RStripKeeps(text: string)
    ensures forall c | c != ' ' :: c in RStrip(text, ' ') <==> c in text
    ensures text != "" && text[0] != ' ' ==> RStrip(text, ' ') != ""
    ensures RStrip(text, ' ') <= text
  {
    if text != [] && text[|text| - 1] == ' ' {
      RStripKeeps(text[..|text| - 1]);
      assert text == text[..|text| - 1] + [' '];
    }
  }

  lemma PrintLength(fs: seq<Tagged>)
    ensures |fs| == 1 && Printable(fs) ==> |Print(fs)| == 4 + |fs[0].1|
    ensures |fs| == 2 && Printable(fs) ==> |Print(fs)| == 8 + |fs[0].1| + |fs[1].1|
    ensures |fs| == 3 && Printable(fs) ==> |Print(fs)| == 12 + |fs[0].1| + |fs[1].1| + |fs[2].1|
  {
    if Printable(fs) && 1 <= |fs| {
      if |fs| == 2 {
        assert Print(fs[1..]) == fs[1].0 + TwoDigits(|fs[1].1|) + fs[1].1 + Print(fs[1..][1..]);
      } else if |fs| == 3 {
        assert Print(fs[1..]) == fs[1].0 + TwoDigits(|fs[1].1|) + fs[1].1 + Print(fs[2..]) by {
          assert fs[1..][1..] == fs[2..];
        }
        assert Print(fs[2..]) == fs[2].0 + TwoDigits(|fs[2].1|) + fs[2].1 + Print(fs[2..][1..]);
      }
    }
  }

  /** The top-level fields of a built code, the checksum's included. */
  ghost function IssuedFields(q: Request, now: nat, checksum: string): seq<Tagged>
    requires Buildable(q, now)
  {
    BuildSucceedsWhen(q, now);
    BodyFields(q, Print(AccountFields(q)), Print(BillFields(q)), Print(StampFields(q, now))) + [("63", checksum)]
  }

  /** A built code is its printed fields, and the last of them is the checksum
      of everything before its value. */
  lemma BuiltText(q: Request, now: nat)
    requires Buildable(q, now)
    ensures Build(q, now).Ok?
    ensures var p := Build(q, now).value;
            && 4 <= |p|
            && Genuine(p)
            && Printable(IssuedFields(q, now, p[|p| - 4..]))
            && p == Print(IssuedFields(q, now, p[|p| - 4..]))
  {
    BuildSucceedsWhen(q, now);
    var fs := BodyFields(q, Print(AccountFields(q)), Print(BillFields(q)), Print(StampFields(q, now)));
    Sealed(fs);
    var body := Print(fs) + "6304";
    assert Build(q, now).value == body + Checksum(Utf8(body));
  }

  lemma Ending(body: string, sum: string)
    requires |sum| == 4
    ensures var p := body + sum; p[|p| - 4..] == sum && p[..|p| - 4] == body
    ensures Genuine(body + sum) <==> sum == Checksum(Utf8(body))
  {
    var p := body + sum;
    assert p[|p| - 4..] == sum && p[..|p| - 4] == body;
  }

  /** The checksum closes the text as one more field. */
  lemma LastField(fs: seq<Tagged>, sum: string)
    requires Printable(fs) && |sum| == 4
    ensures Printable(fs + [("63", sum)])
    ensures Print(fs + [("63", sum)]) == Print(fs) + "6304" + sum
  {
    assert [("63", sum)][0] == ("63", sum);
    PrintAppend(fs, ("63", sum));
    assert "63" + TwoDigits(4) == "6304";
    assert Print(fs) + ("63" + TwoDigits(4) + sum) == Print(fs) + "6304" + sum;
  }

  lemma Sealed(fs: seq<Tagged>)
    requires Printable(fs)
    ensures var body := Print(fs) + "6304";
            var p := body + Checksum(Utf8(body));
            && 4 <= |p| && p[|p| - 4..] == Checksum(Utf8(body)) && p[..|p| - 4] == body
            && Printable(fs + [("63", p[|p| - 4..])])
            && p == Print(fs + [("63", p[|p| - 4..])])
  {
    var body := Print(fs) + "6304";
    Ending(body, Checksum(Utf8(body)));
    LastField(fs, Checksum(Utf8(body)));
  }

  lemma {:induction false} PrintAppend(fs: seq<Tagged>, f: Tagged)
    requires Printable(fs) && Printable([f])
    ensures Printable(fs + [f])
    ensures |f.1| <= 99
    ensures Print(fs + [f]) == Print(fs) + (f.0 + TwoDigits(|f.1|) + f.1)
    decreases fs
  {
    assert [f][0] == f;
    if fs == [] {
      assert fs + [f] == [f];
      assert Print([f]) == f.0 + TwoDigits(|f.1|) + f.1 + Print([f][1..]);
    } else {
      assert (fs + [f])[1..] == fs[1..] + [f];
      PrintAppend(fs[1..], f);
    }
  }

  /** The tags of a built code and what they hold. */
  ghost function IssuedTags(q: Request, now: nat, checksum: string): map<string, string>
    requires Buildable(q, now)
  {
    BuildSucceedsWhen(q, now);
    map["00" := "01", "01" := "12", AccountTag(q) := Print(AccountFields(q)),
        "52" := "5999", "53" := CurrencyCode(q.currency), "54" := AmountText(q.amount, q.currency),
        "58" := "KH", "59" := Ascii(q.merchantName, NAME_LIMIT), "60" := City(q),
        "62" := Print(BillFields(q)), "99" := Print(StampFields(q, now)), "63" := checksum]
  }

  /** Round trip of a whole code: parsing it finds exactly the tags that were
      put in, and the checksum of all that stands before it. */
  lemma BuildRoundTrip(q: Request, now: nat)
    requires Buildable(q, now)
    ensures Build(q, now).Ok?
    ensures var p := Build(q, now).value;
            && 4 <= |p|
            && ParseText(p) == Ok(IssuedTags(q, now, Checksum(Utf8(p[..|p| - 4]))))
  {
    BuiltText(q, now);
    var p := Build(q, now).value;
    var fs := IssuedFields(q, now, p[|p| - 4..]);
    ParsePrinted(map[], fs);
    TwelveFields(fs);
  }

  ghost predicate Printables(text: string)
  {
    exists c <- text :: 32 < c as int < 127
  }

  /** The tags of a built code. */
  ghost predicate HasTags(m: map<string, string>, q: Request)
  {
    m.Keys == {"00", "01", "52", "53", "54", "58", "59", "60", "62", "63", "99",
               if q.merchantId == "" then "29" else "30"}
  }

  /** What a reader finds under them, in the program's own constants: the version,
      that the code is for one payment, the category, the currency, the amount,
      the country, the merchant and the city. */
  ghost predicate Tells(m: map<string, string>, q: Request)
    requires HasTags(m, q) && 0.0 < q.amount
  {
    && m["00"] == "01" && m["01"] == "12" && m["52"] == "5999" && m["58"] == "KH"
    && (q.currency == "KHR" || q.currency == "USD")
    && m["53"] == (if q.currency == "KHR" then "116" else "840")
    && m["54"] == AmountText(q.amount, q.currency)
    && m["59"] == Ascii(q.merchantName, 25) && Printables(q.merchantName)
    && m["60"] == (if Printables(q.merchantCity) then Ascii(q.merchantCity, 15) else "Phnom Penh")
  }

  lemma IssuedHasTags(q: Request, now: nat, checksum: string)
    requires Buildable(q, now)
    ensures HasTags(IssuedTags(q, now, checksum), q)
  {
  }

  lemma IssuedFixed(q: Request, now: nat, checksum: string)
    requires Buildable(q, now) && HasTags(IssuedTags(q, now, checksum), q)
    ensures var m := IssuedTags(q, now, checksum);
            && m["00"] == "01" && m["01"] == "12" && m["52"] == "5999" && m["58"] == "KH"
            && m["53"] == CurrencyCode(q.currency) && m["54"] == AmountText(q.amount, q.currency)
  {
  }

  lemma IssuedNames(q: Request, now: nat, checksum: string)
    requires Buildable(q, now) && HasTags(IssuedTags(q, now, checksum), q)
    ensures var m := IssuedTags(q, now, checksum);
            m["59"] == Ascii(q.merchantName, NAME_LIMIT) && m["60"] == City(q)
  {
  }

  lemma IssuedTells(q: Request, now: nat, checksum: string)
    requires Buildable(q, now) && HasTags(IssuedTags(q, now, checksum), q)
    ensures Tells(IssuedTags(q, now, checksum), q)
  {
    IssuedFixed(q, now, checksum);
    IssuedNames(q, now, checksum);
    NameLeft(q.merchantCity, 15);
  }

  /** Reading a built code finds those tags and no others, with those values. */
  lemma BuiltFields(q: Request, now: nat)
    requires Build(q, now).Ok?
    ensures 0.0 < q.amount && ParseText(Build(q, now).value).Ok?
    ensures HasTags(ParseText(Build(q, now).value).value, q)
    ensures Tells(ParseText(Build(q, now).value).value, q)
  {
    BuildSucceedsWhen(q, now);
    BuildRoundTrip(q, now);
    var p := Build(q, now).value;
    IssuedHasTags(q, now, Checksum(Utf8(p[..|p| - 4])));
    IssuedTells(q, now, Checksum(Utf8(p[..|p| - 4])));
  }

  /** Round trip of the templates: parsing tags 29 or 30, 62 and 99 again finds
      their subfields, and tag 54 reads as the amount rounded half up. */
  lemma TemplatesRoundTrip(q: Request, now: nat, checksum: string)
    requires Buildable(q, now)
    ensures var m := IssuedTags(q, now, checksum);
            && AccountTag(q) in m && "62" in m && "99" in m && "54" in m
            && ParseText(m[AccountTag(q)]) == Ok(
                 if q.merchantId == "" then map["00" := q.accountId]
                 else map["00" := q.accountId, "01" := q.merchantId, "02" := q.acquiringBank])
            && ParseText(m["62"]) == Ok(map["01" := Slice(q.billNumber, 0, 25)])
            && ParseText(m["99"]) == Ok(
                 var created := Decimal(if q.createdAtMs != 0 then q.createdAtMs else now);
                 if q.expiresAtMs == 0 then map["00" := created]
                 else map["00" := created, "01" := Decimal(q.expiresAtMs)])
            && Hundredths(m["54"])
               == if q.currency == KHR then 100 * RoundHalfUp(q.amount) else RoundHalfUp(q.amount * 100.0)
  {
    BuildSucceedsWhen(q, now);
    LookUp(q, now, checksum);
    ParsePrinted(map[], AccountFields(q));
    ParsePrinted(map[], BillFields(q));
    ParsePrinted(map[], StampFields(q, now));
    FewFields(AccountFields(q));
    FewFields(BillFields(q));
    FewFields(StampFields(q, now));
    AmountTextDenotes(q.amount, q.currency);
  }

  lemma LookUp(q: Request, now: nat, checksum: string)
    requires Buildable(q, now)
    ensures var m := IssuedTags(q, now, checksum);
            && AccountTag(q) in m && "62" in m && "99" in m && "54" in m
            && m[AccountTag(q)] == Print(AccountFields(q))
            && m["62"] == Print(BillFields(q)) && m["99"] == Print(StampFields(q, now))
            && m["54"] == AmountText(q.amount, q.currency)
  {
  }

  /** Reading a short list, one update a field. */
  lemma FewFields(fs: seq<Tagged>)
    ensures |fs| == 1 ==> Onto(map[], fs) == map[fs[0].0 := fs[0].1]
    ensures |fs| == 2 ==> Onto(map[], fs) == map[fs[0].0 := fs[0].1, fs[1].0 := fs[1].1]
    ensures |fs| == 3 ==> Onto(map[], fs) == map[fs[0].0 := fs[0].1, fs[1].0 := fs[1].1, fs[2].0 := fs[2].1]
  {
    if 1 <= |fs| <= 3 {
      OntoDrop(map[], fs, 0);
      if 2 <= |fs| {
        var one := map[fs[0].0 := fs[0].1];
        OntoDrop(one, fs, 1);
        if |fs| == 3 {
          OntoDrop(one[fs[1].0 := fs[1].1], fs, 2);
        }
      }
    }
  }

  lemma OntoDrop(m: map<string, string>, fs: seq<Tagged>, k: nat)
    requires k < |fs|
    ensures k == 0 ==> fs[k..] == fs
    ensures Onto(m, fs[k..]) == Onto(m[fs[k].0 := fs[k].1], fs[k + 1..])
    ensures k + 1 == |fs| ==> Onto(m, fs[k..]) == m[fs[k].0 := fs[k].1]
  {
    assert fs[k..][1..] == fs[k + 1..];
  }

  lemma TwelveFields(fs: seq<Tagged>)
    requires |fs| == 12
    ensures Onto(map[], fs) == map[
      fs[0].0 := fs[0].1, fs[1].0 := fs[1].1, fs[2].0 := fs[2].1, fs[3].0 := fs[3].1,
      fs[4].0 := fs[4].1, fs[5].0 := fs[5].1, fs[6].0 := fs[6].1, fs[7].0 := fs[7].1,
      fs[8].0 := fs[8].1, fs[9].0 := fs[9].1, fs[10].0 := fs[10].1, fs[11].0 := fs[11].1]
  {
    var m1 := map[fs[0].0 := fs[0].1];
    var m2 := m1[fs[1].0 := fs[1].1];
    var m3 := m2[fs[2].0 := fs[2].1];
    var m4 := m3[fs[3].0 := fs[3].1];
    var m5 := m4[fs[4].0 := fs[4].1];
    var m6 := m5[fs[5].0 := fs[5].1];
    var m7 := m6[fs[6].0 := fs[6].1];
    var m8 := m7[fs[7].0 := fs[7].1];
    var m9 := m8[fs[8].0 := fs[8].1];
    var m10 := m9[fs[9].0 := fs[9].1];
    var m11 := m10[fs[10].0 := fs[10].1];
    OntoDrop(map[], fs, 0);
    OntoDrop(m1, fs, 1);
    OntoDrop(m2, fs, 2);
    OntoDrop(m3, fs, 3);
    OntoDrop(m4, fs, 4);
    OntoDrop(m5, fs, 5);
    OntoDrop(m6, fs, 6);
    OntoDrop(m7, fs, 7);
    OntoDrop(m8, fs, 8);
    OntoDrop(m9, fs, 9);
    OntoDrop(m10, fs, 10);
    OntoDrop(m11, fs, 11);
  }

  // ---- A mistyped code ------------------------------------------------------

  lemma {:induction false} Utf8Append(a: string, b: string)
    ensures Utf8(a + b) == Utf8(a) + Utf8(b)
    decreases a
  {
    if a == [] {
      assert a + b == b;
    } else {
      assert (a + b)[1..] == a[1..] + b;
      Utf8Append(a[1..], b);
    }
  }

  ghost predicate AsciiText(a: string)
  {
    forall i :: 0 <= i < |a| ==> a[i] as int < 128
  }

  lemma {:induction false} Utf8OfAscii(a: string)
    requires AsciiText(a)
    ensures |Utf8(a)| == |a|
    ensures forall i :: 0 <= i < |a| ==> Utf8(a)[i] == a[i] as int
    decreases a
  {
    if a != [] {
      Utf8OfAscii(a[1..]);
    }
  }

  /** The texts agree outside `width` places from `at`, and hold only ASCII
      there. */
  ghost predicate Mistyped(a: string, b: string, at: nat, width: nat)
  {
    && |a| == |b| && at + width <= |a|
    && a[..at] == b[..at] && a[at + width..] == b[at + width..]
    && AsciiText(a[at..at + width]) && AsciiText(b[at..at + width])
  }

  /** A genuine text in which one ASCII character, or two adjacent ones, are
      replaced by others is no longer genuine, wherever they stand: in the body,
      in the checksum, or one in each. */
  lemma TypoCaught(a: string, b: string, at: nat, width: nat)
    requires Genuine(a) && a != b && width <= 2 && Mistyped(a, b, at, width)
    ensures !Genuine(b)
  {
    var n := |a| - 4;
    if at + width <= n {
      BodyTypo(a, b, at, width);
    } else if n <= at {
      SumTypo(a, b, at);
    } else {
      assert width == 2 && at + 5 == |a|;
      StraddlingTypo(a, b, at);
    }
  }

  lemma Halves(a: string, b: string, n: nat)
    requires n <= |a| == |b| && a[..n] == b[..n] && a[n..] == b[n..]
    ensures a == b
  {
    assert a == a[..n] + a[n..] && b == b[..n] + b[n..];
  }

  lemma SameHead(a: string, b: string, n: nat, at: nat)
    requires n <= at <= |a| == |b| && a[..at] == b[..at]
    ensures a[..n] == b[..n]
  {
    assert a[..at][..n] == a[..n] && b[..at][..n] == b[..n];
  }

  lemma SumTypo(a: string, b: string, at: nat)
    requires Genuine(a) && a != b && |a| == |b| && |a| - 4 <= at <= |a| && a[..at] == b[..at]
    ensures !Genuine(b)
  {
    SameHead(a, b, |a| - 4, at);
    if a[|a| - 4..] == b[|a| - 4..] {
      Halves(a, b, |a| - 4);
    }
  }

  /** The texts around a change of the body. */
  lemma BodyShape(a: string, b: string, at: nat, width: nat, n: nat)
    requires Mistyped(a, b, at, width) && at + width <= n <= |a|
    ensures a[..n] == a[..at] + a[at..at + width] + a[at + width..n]
    ensures b[..n] == a[..at] + b[at..at + width] + a[at + width..n]
    ensures a[n..] == b[n..]
    ensures a != b ==> a[at..at + width] != b[at..at + width]
  {
    var m := at + width;
    assert a[m..n] == a[m..][..n - m] && b[m..n] == b[m..][..n - m];
    assert a[n..] == a[m..][n - m..] && b[n..] == b[m..][n - m..];
    assert a == a[..at] + a[at..m] + a[m..] && b == b[..at] + b[at..m] + b[m..];
  }

  lemma Unlike(a: string, b: string, n: nat)
    requires Genuine(a) && |a| == |b| == n + 4 && a[n..] == b[n..]
    requires Checksum(Utf8(a[..n])) != Checksum(Utf8(b[..n]))
    ensures !Genuine(b)
  {
  }

  lemma BodyTypo(a: string, b: string, at: nat, width: nat)
    requires Genuine(a) && a != b && width <= 2 && Mistyped(a, b, at, width) && at + width <= |a| - 4
    ensures !Genuine(b)
  {
    var n := |a| - 4;
    BodyShape(a, b, at, width, n);
    BodyChanged(a[..at], a[at..at + width], b[at..at + width], a[at + width..n]);
    Unlike(a, b, n);
  }

  lemma BodyChanged(front: string, x: string, y: string, back: string)
    requires |x| == |y| <= 2 && x != y && AsciiText(x) && AsciiText(y)
    ensures Checksum(Utf8(front + x + back)) != Checksum(Utf8(front + y + back))
  {
    Utf8Around(front, x, back);
    Utf8Around(front, y, back);
    Utf8OfAscii(x);
    Utf8OfAscii(y);
    ChangedBytes(Utf8(front), Utf8(x), Utf8(y), Utf8(back), x, y);
  }

  lemma OneByte(front: string, x: char) returns (b: Byte)
    requires x as int < 128
    ensures b == x as int && Utf8(front + [x]) == Utf8(front) + [b]
  {
    b := x as int;
    Utf8Append(front, [x]);
    assert [x][1..] == [];
  }

  lemma LastCharDetected(front: string, x: char, y: char)
    requires x as int < 128 && y as int < 128
    requires Checksum(Utf8(front + [x]))[1..] == Checksum(Utf8(front + [y]))[1..]
    ensures x == y
  {
    var b := OneByte(front, x);
    var c := OneByte(front, y);
    LastByteDetected(Utf8(front), b, c);
  }

  /** The texts around the last character of the body. */
  lemma Straddled(a: string, b: string, at: nat)
    requires at + 5 == |a| && Mistyped(a, b, at, 2)
    ensures a[..at + 1] == a[..at] + [a[at]] && b[..at + 1] == a[..at] + [b[at]]
    ensures a[at + 1..][1..] == b[at + 1..][1..]
    ensures a[at] as int < 128 && b[at] as int < 128
    ensures a[at] == b[at] ==> a[..at + 1] == b[..at + 1]
  {
    assert a[at..at + 2][0] == a[at] && b[at..at + 2][0] == b[at];
    assert a[at + 1..][1..] == a[at + 2..] && b[at + 1..][1..] == b[at + 2..];
  }

  /** The last character of the body and the first of the checksum. */
  lemma StraddlingTypo(a: string, b: string, at: nat)
    requires Genuine(a) && a != b && at + 5 == |a| && Mistyped(a, b, at, 2)
    ensures !Genuine(b)
  {
    Straddled(a, b, at);
    if a[at] == b[at] {
      SumTypo(a, b, at + 1);
    } else if Genuine(b) {
      LastCharDetected(a[..at], a[at], b[at]);
    }
  }

  lemma Utf8Around(front: string, x: string, back: string)
    ensures Utf8(front + x + back) == Utf8(front) + Utf8(x) + Utf8(back)
  {
    Utf8Append(front + x, back);
    Utf8Append(front, x);
  }

  lemma ChangedBytes(front: seq<Byte>, u: seq<Byte>, v: seq<Byte>, back: seq<Byte>, x: string, y: string)
    requires |x| == |y| == |u| == |v| <= 2 && x != y
    requires forall i :: 0 <= i < |x| ==> u[i] == x[i] as int && v[i] == y[i] as int
    ensures Checksum(front + u + back) != Checksum(front + v + back)
  {
    var a, b := front + u + back, front + v + back;
    var i :| 0 <= i < |x| && x[i] != y[i];
    assert a[|front| + i] == u[i] && b[|front| + i] == v[i];
    assert a[..|front|] == front == b[..|front|];
    assert a[|front| + |x|..] == back == b[|front| + |x|..];
    AdjacentBytesDetected(a, b, |front|, |x|);
  }
}

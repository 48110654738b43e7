/** The per-tick metrics record and its CSV row layout (collector/metrics.go):
    the record, the fixed list of column tags, and the rendering of every
    field as text. Counts, byte totals and currency amounts are rendered as
    base-10 digits of the exact value; the timestamp as
    `YYYY-MM-DDTHH:MM:SSZ`. */
module Metrics {
  import opened Common

  /** A civil instant in UTC, to the second: what the row shows of Go's
      `time.Time` once it has been converted with `UTC()`. */
  datatype Time = Time(year: int, month: nat, day: nat, hour: nat, minute: nat, second: nat)

  predicate ValidTime(t: Time) {
    && 1 <= t.month <= 12 && 1 <= t.day <= 31
    && t.hour < 24 && t.minute < 60 && t.second < 60
  }

  /** The metrics record. Currency amounts (`types.Currency`, an arbitrary
      precision integer) are `nat`; `apiLatency` is a `time.Duration` in
      nanoseconds. `contractCountRenewed` and `contractCountDisabled` are the
      two counts the collector fills in; `contractCountInactive` is the
      column the row carries and the collector never assigns. */
  datatype Metrics = Metrics(
    timestamp: Time,
    apiLatency: int,
    fileCount: U64,
    fileTotalBytes: U64,
    fileUploadsInProgressCount: U64,
    fileUploadedBytes: U64,
    contractCountActive: nat,
    contractCountInactive: nat,
    contractCountRenewed: nat,
    contractCountDisabled: nat,
    contractTotalSize: U64,
    contractTotalSpending: nat,
    contractFeeSpending: nat,
    contractStorageSpending: nat,
    contractUploadSpending: nat,
    contractDownloadSpending: nat,
    contractRemainingFunds: nat,
    walletSiacoinBalance: nat,
    walletOutgoingSiacoins: nat,
    walletIncomingSiacoins: nat,
    renterAllowance: nat,
    renterContractFees: nat,
    renterTotalAllocated: nat,
    renterDownloadSpending: nat,
    renterStorageSpending: nat,
    renterUploadSpending: nat,
    renterUnspent: nat)

  /** The zero record stamped with `now`: what the collector starts from. */
  function Initial(now: Time): (r: Metrics) {
    Metrics(now, 0, 0, 0, 0, 0, 0, 0, 0, 0, 0, 0, 0, 0, 0, 0, 0, 0, 0, 0, 0, 0, 0, 0, 0, 0, 0)
  }

  /** The `csv` tags of the record's fields, in declaration order: the
      header row of a new metrics file. */
  const Headers: seq<string> := [
    "timestamp", "api_latency",
    "file_count", "file_total_bytes", "file_uploads_in_progress_count", "file_uploaded_bytes",
    "contract_count_active", "contract_count_inactive", "contract_total_size",
    "contract_total_spending", "contract_fee_spending", "contract_storage_spending",
    "contract_upload_spending", "contract_download_spending", "contract_remaining_funds",
    "wallet_siacoin_balance", "wallet_outgoing_siacoins", "wallet_incoming_siacoins",
    "renter_allowance", "renter_contract_fees", "renter_total_allocated",
    "renter_download_spending", "renter_storage_spending", "renter_upload_spending",
    "renter_unspent"]

  /** The fields of the record that the row carries, in declaration order
      (the struct fields behind each `csv` tag). */
  datatype Field =
    | Timestamp | ApiLatency | FileCount | FileTotalBytes
    | FileUploadsInProgressCount | FileUploadedBytes | ContractCountActive | ContractCountInactive
    | ContractTotalSize | ContractTotalSpending | ContractFeeSpending | ContractStorageSpending
    | ContractUploadSpending | ContractDownloadSpending | ContractRemainingFunds | WalletSiacoinBalance
    | WalletOutgoingSiacoins | WalletIncomingSiacoins | RenterAllowance | RenterContractFees
    | RenterTotalAllocated | RenterDownloadSpending | RenterStorageSpending | RenterUploadSpending
    | RenterUnspent

  /** The struct fields in declaration order. */
  const Fields: seq<Field> := [
    Timestamp, ApiLatency, FileCount, FileTotalBytes,
    FileUploadsInProgressCount, FileUploadedBytes, ContractCountActive, ContractCountInactive,
    ContractTotalSize, ContractTotalSpending, ContractFeeSpending, ContractStorageSpending,
    ContractUploadSpending, ContractDownloadSpending, ContractRemainingFunds, WalletSiacoinBalance,
    WalletOutgoingSiacoins, WalletIncomingSiacoins, RenterAllowance, RenterContractFees,
    RenterTotalAllocated, RenterDownloadSpending, RenterStorageSpending, RenterUploadSpending,
    RenterUnspent]

  /** The `csv` tag attached to a field. */
  function Tag(f: Field): (r: string) {
    match f
    case Timestamp => "timestamp"
    case ApiLatency => "api_latency"
    case FileCount => "file_count"
    case FileTotalBytes => "file_total_bytes"
    case FileUploadsInProgressCount => "file_uploads_in_progress_count"
    case FileUploadedBytes => "file_uploaded_bytes"
    case ContractCountActive => "contract_count_active"
    case ContractCountInactive => "contract_count_inactive"
    case ContractTotalSize => "contract_total_size"
    case ContractTotalSpending => "contract_total_spending"
    case ContractFeeSpending => "contract_fee_spending"
    case ContractStorageSpending => "contract_storage_spending"
    case ContractUploadSpending => "contract_upload_spending"
    case ContractDownloadSpending => "contract_download_spending"
    case ContractRemainingFunds => "contract_remaining_funds"
    case WalletSiacoinBalance => "wallet_siacoin_balance"
    case WalletOutgoingSiacoins => "wallet_outgoing_siacoins"
    case WalletIncomingSiacoins => "wallet_incoming_siacoins"
    case RenterAllowance => "renter_allowance"
    case RenterContractFees => "renter_contract_fees"
    case RenterTotalAllocated => "renter_total_allocated"
    case RenterDownloadSpending => "renter_download_spending"
    case RenterStorageSpending => "renter_storage_spending"
    case RenterUploadSpending => "renter_upload_spending"
    case RenterUnspent => "renter_unspent"
  }

  /** The value of a numeric field (every field but the timestamp and the
      latency). */
  function Numeric(m: Metrics, f: Field): (r: Option<nat>) {
    match f
    case Timestamp => None
    case ApiLatency => None
    case FileCount => Some(m.fileCount)
    case FileTotalBytes => Some(m.fileTotalBytes)
    case FileUploadsInProgressCount => Some(m.fileUploadsInProgressCount)
    case FileUploadedBytes => Some(m.fileUploadedBytes)
    case ContractCountActive => Some(m.contractCountActive)
    case ContractCountInactive => Some(m.contractCountInactive)
    case ContractTotalSize => Some(m.contractTotalSize)
    case ContractTotalSpending => Some(m.contractTotalSpending)
    case ContractFeeSpending => Some(m.contractFeeSpending)
    case ContractStorageSpending => Some(m.contractStorageSpending)
    case ContractUploadSpending => Some(m.contractUploadSpending)
    case ContractDownloadSpending => Some(m.contractDownloadSpending)
    case ContractRemainingFunds => Some(m.contractRemainingFunds)
    case WalletSiacoinBalance => Some(m.walletSiacoinBalance)
    case WalletOutgoingSiacoins => Some(m.walletOutgoingSiacoins)
    case WalletIncomingSiacoins => Some(m.walletIncomingSiacoins)
    case RenterAllowance => Some(m.renterAllowance)
    case RenterContractFees => Some(m.renterContractFees)
    case RenterTotalAllocated => Some(m.renterTotalAllocated)
    case RenterDownloadSpending => Some(m.renterDownloadSpending)
    case RenterStorageSpending => Some(m.renterStorageSpending)
    case RenterUploadSpending => Some(m.renterUploadSpending)
    case RenterUnspent => Some(m.renterUnspent)
  }

  // ---------------------------------------------------------------------
  // Base-10 rendering (`strconv.FormatUint(x, 10)`, `strconv.Itoa`,
  // `big.Int.String`) and its inverse

  predicate IsDigits(s: string) {
    forall i :: 0 <= i < |s| ==> '0' <= s[i] <= '9'
  }

  /** Digits with no superfluous leading zero. */
  predicate Canonical(s: string) {
    |s| >= 1 && IsDigits(s) && (|s| > 1 ==> s[0] != '0')
  }

  function Digit(d: nat): (c: char)
    requires d < 10
    ensures '0' <= c <= '9'
  {
    (('0' as int) + d) as char
  }

  function DigitValue(c: char): (d: nat)
    requires '0' <= c <= '9'
    ensures d < 10 && Digit(d) == c
  {
    (c as int) - ('0' as int)
  }

  /** The base-10 text of `n`. */
  function Decimal(n: nat): (r: string) {
    if n < 10 then [Digit(n)] else Decimal(n / 10) + [Digit(n % 10)]
  }

  /** The number a string of digits denotes (leading zeros allowed). */
  function ParseDigits(s: string): (r: nat)
    requires IsDigits(s)
  {
    if s == [] then 0 else ParseDigits(s[..|s| - 1]) * 10 + DigitValue(s[|s| - 1])
  }

  /** The rendering is canonical base-10 text and reads back as `n`. */
  lemma {:induction false} DecimalRoundTrip(n: nat)
    ensures Canonical(Decimal(n)) && ParseDigits(Decimal(n)) == n
  {
    if n >= 10 {
      var s := Decimal(n);
      DecimalRoundTrip(n / 10);
      assert s[..|s| - 1] == Decimal(n / 10);
    }
  }

  /** The other direction: every canonical digit string is the rendering of
      the number it denotes, so the rendering is the one text for its value. */
  lemma {:induction false} CanonicalRoundTrip(s: string)
    requires Canonical(s)
    ensures Decimal(ParseDigits(s)) == s
  {
    var p := s[..|s| - 1];
    var d := DigitValue(s[|s| - 1]);
    if |s| > 1 {
      assert p[0] == s[0];
      assert Canonical(p);
      LeadingDigitPositive(p);
      CanonicalRoundTrip(p);
      var n := ParseDigits(s);
      assert n == ParseDigits(p) * 10 + d;
      assert n / 10 == ParseDigits(p) && n % 10 == d;
      assert s == p + [s[|s| - 1]];
    }
  }

  lemma {:induction false} LeadingDigitPositive(s: string)
    requires IsDigits(s) && |s| >= 1 && s[0] != '0'
    ensures ParseDigits(s) >= 1
  {
    if |s| > 1 {
      var p := s[..|s| - 1];
      assert p[0] == s[0];
      LeadingDigitPositive(p);
    }
  }

  /** `n` rendered with at least `width` digits, zero-padded on the left:
      how Go's time layout prints `2006`, `01`, `02`, `15`, `04` and `05`. */
  function Padded(n: nat, width: nat): (r: string) {
    var d := Decimal(n);
    if |d| >= width then d else Zeros(width - |d|) + d
  }

  function Zeros(k: nat): (z: string)
    ensures |z| == k && forall i :: 0 <= i < k ==> z[i] == '0'
  {
    if k == 0 then [] else Zeros(k - 1) + ['0']
  }

  lemma {:induction false} LeadingZerosIgnored(k: nat, s: string)
    requires IsDigits(s)
    ensures IsDigits(Zeros(k) + s) && ParseDigits(Zeros(k) + s) == ParseDigits(s)
  {
    if s == [] {
      assert Zeros(k) + s == Zeros(k);
      ZerosDenoteZero(k);
    } else {
      var t := Zeros(k) + s;
      assert t[..|t| - 1] == Zeros(k) + s[..|s| - 1];
      LeadingZerosIgnored(k, s[..|s| - 1]);
    }
  }

  lemma {:induction false} ZerosDenoteZero(k: nat)
    ensures ParseDigits(Zeros(k)) == 0
  {
    if k > 0 {
      assert Zeros(k)[..k - 1] == Zeros(k - 1);
      ZerosDenoteZero(k - 1);
    }
  }

  lemma {:induction false} DecimalLength(n: nat, width: nat, bound: nat)
    requires 1 <= width && n < bound && (width == 1 ==> bound == 10)
    requires width == 2 ==> bound == 100
    requires width == 4 ==> bound == 10000
    requires width == 1 || width == 2 || width == 4
    ensures |Decimal(n)| <= width
  {
    if n >= 10 {
      if width == 2 {
        DecimalLength(n / 10, 1, 10);
      } else if width == 4 {
        if n >= 1000 {
          assert n / 10 < 1000;
          assert |Decimal(n / 10 / 10)| <= 2 by { DecimalLength(n / 10 / 10, 2, 100); }
        } else {
          DecimalLength(n / 10, 2, 100);
        }
      }
    }
  }

  lemma PaddedRoundTrip(n: nat, width: nat)
    requires (width == 2 && n < 100) || (width == 4 && n < 10000)
    ensures |Padded(n, width)| == width && IsDigits(Padded(n, width))
    ensures ParseDigits(Padded(n, width)) == n
  {
    DecimalLength(n, width, if width == 2 then 100 else 10000);
    DecimalRoundTrip(n);
    var d := Decimal(n);
    if |d| < width {
      LeadingZerosIgnored(width - |d|, d);
    }
  }

  // ---------------------------------------------------------------------
  // Timestamp (`Format("2006-01-02T15:04:05Z")` on the UTC time)

  function YearText(y: int): (r: string) {
    if y < 0 then "-" + Padded(-y, 4) else Padded(y, 4)
  }

  function FormatTimestamp(t: Time): (r: string) {
    YearText(t.year) + "-" + Padded(t.month, 2) + "-" + Padded(t.day, 2)
      + "T" + Padded(t.hour, 2) + ":" + Padded(t.minute, 2) + ":" + Padded(t.second, 2) + "Z"
  }

  /** Reads back a timestamp of the exact form `YYYY-MM-DDTHH:MM:SSZ`. */
  function ParseTimestamp(s: string): (r: Option<Time>) {
    if |s| == 20 && s[4] == '-' && s[7] == '-' && s[10] == 'T' && s[13] == ':' && s[16] == ':'
       && s[19] == 'Z' && IsDigits(s[0..4]) && IsDigits(s[5..7]) && IsDigits(s[8..10])
       && IsDigits(s[11..13]) && IsDigits(s[14..16]) && IsDigits(s[17..19])
    then Some(Time(ParseDigits(s[0..4]), ParseDigits(s[5..7]), ParseDigits(s[8..10]),
                   ParseDigits(s[11..13]), ParseDigits(s[14..16]), ParseDigits(s[17..19])))
    else None
  }

  /** For a valid time in years 0 to 9999 the rendered timestamp is exactly
      20 characters of the ISO 8601 form and reads back as the same time. */
  lemma TimestampRoundTrip(t: Time)
    requires ValidTime(t) && 0 <= t.year <= 9999
    ensures |FormatTimestamp(t)| == 20 && ParseTimestamp(FormatTimestamp(t)) == Some(t)
  {
    var y := Padded(t.year, 4);
    var mo, d := Padded(t.month, 2), Padded(t.day, 2);
    var h, mi, se := Padded(t.hour, 2), Padded(t.minute, 2), Padded(t.second, 2);
    PaddedRoundTrip(t.year, 4);
    PaddedRoundTrip(t.month, 2);
    PaddedRoundTrip(t.day, 2);
    PaddedRoundTrip(t.hour, 2);
    PaddedRoundTrip(t.minute, 2);
    PaddedRoundTrip(t.second, 2);
    Layout(y, mo, d, h, mi, se);
  }

  /** Where the six fields sit in a rendered timestamp. */
  lemma Layout(y: string, mo: string, d: string, h: string, mi: string, se: string)
    requires |y| == 4 && |mo| == 2 && |d| == 2 && |h| == 2 && |mi| == 2 && |se| == 2
    ensures var s := y + "-" + mo + "-" + d + "T" + h + ":" + mi + ":" + se + "Z";
      && |s| == 20 && s[4] == '-' && s[7] == '-' && s[10] == 'T' && s[13] == ':' && s[16] == ':' && s[19] == 'Z'
      && s[0..4] == y && s[5..7] == mo && s[8..10] == d
      && s[11..13] == h && s[14..16] == mi && s[17..19] == se
  {
    var date := y + "-" + mo + "-" + d;
    var time := "T" + h + ":" + mi + ":" + se + "Z";
    var s := y + "-" + mo + "-" + d + "T" + h + ":" + mi + ":" + se + "Z";
    assert s == date + time;
    LayoutDate(y, mo, d);
    LayoutTime(h, mi, se);
    Split(date, time);
    Within(s, 0, date, 0, 4);
    Within(s, 0, date, 5, 7);
    Within(s, 0, date, 8, 10);
    Within(s, 10, time, 1, 3);
    Within(s, 10, time, 4, 6);
    Within(s, 10, time, 7, 9);
    assert s[4] == date[4] && s[7] == date[7];
    assert s[10] == time[0] && s[13] == time[3] && s[16] == time[6] && s[19] == time[9];
  }

  lemma LayoutDate(y: string, mo: string, d: string)
    requires |y| == 4 && |mo| == 2 && |d| == 2
    ensures var s := y + "-" + mo + "-" + d;
      && |s| == 10 && s[4] == '-' && s[7] == '-'
      && s[0..4] == y && s[5..7] == mo && s[8..10] == d
  {
    var s := y + "-" + mo + "-" + d;
    assert s[0..4] == y by { Split(y + "-" + mo + "-", d); Split(y, "-" + mo + "-" + d); assert s == y + ("-" + mo + "-" + d); }
    assert s[5..7] == mo by { assert s == (y + "-") + mo + ("-" + d); Split(y + "-", mo + ("-" + d)); Split(mo, "-" + d); Within(s, 5, mo + ("-" + d), 0, 2); }
    assert s[8..10] == d by { Split(y + "-" + mo + "-", d); }
  }

  lemma LayoutTime(h: string, mi: string, se: string)
    requires |h| == 2 && |mi| == 2 && |se| == 2
    ensures var t := "T" + h + ":" + mi + ":" + se + "Z";
      && |t| == 10 && t[0] == 'T' && t[3] == ':' && t[6] == ':' && t[9] == 'Z'
      && t[1..3] == h && t[4..6] == mi && t[7..9] == se
  {
    var t := "T" + h + ":" + mi + ":" + se + "Z";
    assert t[1..3] == h by { assert t == "T" + (h + (":" + mi + ":" + se + "Z")); Split("T", h + (":" + mi + ":" + se + "Z")); Split(h, ":" + mi + ":" + se + "Z"); Within(t, 1, h + (":" + mi + ":" + se + "Z"), 0, 2); }
    assert t[4..6] == mi by { assert t == ("T" + h + ":") + (mi + (":" + se + "Z")); Split("T" + h + ":", mi + (":" + se + "Z")); Split(mi, ":" + se + "Z"); Within(t, 4, mi + (":" + se + "Z"), 0, 2); }
    assert t[7..9] == se by { assert t == ("T" + h + ":" + mi + ":") + (se + "Z"); Split("T" + h + ":" + mi + ":", se + "Z"); Split(se, "Z"); Within(t, 7, se + "Z", 0, 2); }
  }

  /** A slice of a slice is a slice of the whole. */
  lemma Within(s: string, off: nat, t: string, i: nat, j: nat)
    requires off + |t| <= |s| && s[off..off + |t|] == t && i <= j <= |t|
    ensures s[off + i..off + j] == t[i..j]
  {
    forall k | 0 <= k < j - i
      ensures s[off + i..off + j][k] == t[i..j][k]
    {
      assert s[off..off + |t|][i + k] == t[i + k];
    }
  }

  lemma Split(a: string, b: string)
    ensures (a + b)[..|a|] == a && (a + b)[|a|..] == b
  {
  }

  // ---------------------------------------------------------------------
  // The row

  /** The CSV row of `m`. The latency column is Go's `Duration.String`,
      a library formatter, given here as `durationText`. */
  function Values(m: Metrics, durationText: int -> string): (r: seq<string>)
    ensures |r| == |Headers| == 25
  {
    [FormatTimestamp(m.timestamp), durationText(m.apiLatency)] + NumericValues(m)
  }

  /** The numeric columns of the row, in field order, each the base-10 text
      of the field (`strconv.FormatUint`, `strconv.Itoa`, `Currency.String`). */
  function NumericValues(m: Metrics): (r: seq<string>)
    ensures |r| == 23
  {
    seq(23, k requires 0 <= k < 23 => Decimal(Numbers(m)[k]))
  }

  /** The numeric fields of the record, in declaration order. */
  function Numbers(m: Metrics): (r: seq<nat>)
    ensures |r| == 23
  {
    [ m.fileCount, m.fileTotalBytes, m.fileUploadsInProgressCount, m.fileUploadedBytes,
      m.contractCountActive, m.contractCountInactive, m.contractTotalSize,
      m.contractTotalSpending, m.contractFeeSpending, m.contractStorageSpending,
      m.contractUploadSpending, m.contractDownloadSpending, m.contractRemainingFunds,
      m.walletSiacoinBalance, m.walletOutgoingSiacoins, m.walletIncomingSiacoins,
      m.renterAllowance, m.renterContractFees, m.renterTotalAllocated,
      m.renterDownloadSpending, m.renterStorageSpending, m.renterUploadSpending,
      m.renterUnspent ]
  }

  /** Column `i` of a row holds the field that header `i` names: header `i`
      is the tag of the `i`-th declared field, the first column is the
      timestamp, the second the latency, and every other column is the
      canonical base-10 text of exactly that field's value. */
  lemma RowMatchesHeaders(m: Metrics, durationText: int -> string)
    ensures |Fields| == |Headers| == |Values(m, durationText)|
    ensures forall i :: 0 <= i < |Headers| ==> Headers[i] == Tag(Fields[i])
    ensures Fields[0] == Timestamp && Values(m, durationText)[0] == FormatTimestamp(m.timestamp)
    ensures Fields[1] == ApiLatency && Values(m, durationText)[1] == durationText(m.apiLatency)
    ensures forall i :: 2 <= i < |Headers| ==>
      && Numeric(m, Fields[i]).Some?
      && Canonical(Values(m, durationText)[i])
      && ParseDigits(Values(m, durationText)[i]) == Numeric(m, Fields[i]).value
  {
    var r := Values(m, durationText);
    forall i | 0 <= i < |Headers|
      ensures Headers[i] == Tag(Fields[i])
      ensures 2 <= i ==> Numeric(m, Fields[i]).Some? && Canonical(r[i])
      ensures 2 <= i ==> ParseDigits(r[i]) == Numeric(m, Fields[i]).value
    {
      Column(m, durationText, i);
      if 2 <= i {
        DecimalRoundTrip(Numeric(m, Fields[i]).value);
      }
    }
  }

  lemma Column(m: Metrics, durationText: int -> string, i: int)
    requires 0 <= i < |Headers|
    ensures Headers[i] == Tag(Fields[i])
    ensures 2 <= i ==> Numeric(m, Fields[i]).Some?
    ensures 2 <= i ==> Values(m, durationText)[i] == Decimal(Numeric(m, Fields[i]).value)
  {
    HeaderTag(i);
    if 2 <= i {
      NumericColumn(m, i);
    }
  }

  lemma NumericColumn(m: Metrics, i: int)
    requires 2 <= i < 25
    ensures Numeric(m, Fields[i]).Some?
    ensures NumericValues(m)[i - 2] == Decimal(Numeric(m, Fields[i]).value)
  {
    if i < 10 {
      FirstNumbers(m, i);
    } else if i < 18 {
      MiddleNumbers(m, i);
    } else {
      LastNumbers(m, i);
    }
  }

  lemma FirstNumbers(m: Metrics, i: int)
    requires 2 <= i < 10
    ensures Numeric(m, Fields[i]) == Some(Numbers(m)[i - 2])
  {
    match i {
      case 2 => case 3 => case 4 => case 5 => case 6 => case 7 => case 8 => case 9 =>
    }
  }

  lemma MiddleNumbers(m: Metrics, i: int)
    requires 10 <= i < 18
    ensures Numeric(m, Fields[i]) == Some(Numbers(m)[i - 2])
  {
    match i {
      case 10 => case 11 => case 12 => case 13 => case 14 => case 15 => case 16 => case 17 =>
    }
  }

  lemma LastNumbers(m: Metrics, i: int)
    requires 18 <= i < 25
    ensures Numeric(m, Fields[i]) == Some(Numbers(m)[i - 2])
  {
    match i {
      case 18 => case 19 => case 20 => case 21 => case 22 => case 23 => case 24 =>
    }
  }

  lemma HeaderTag(i: int)
    requires 0 <= i < |Headers|
    ensures Headers[i] == Tag(Fields[i])
  {
    if i < 9 {
      HeaderTagFirst(i);
    } else if i < 18 {
      HeaderTagMiddle(i);
    } else {
      HeaderTagLast(i);
    }
  }

  lemma HeaderTagFirst(i: int)
    requires 0 <= i < 9
    ensures Headers[i] == Tag(Fields[i])
  {
    match i {
      case 0 => case 1 => case 2 => case 3 => case 4 => case 5 => case 6 =>
      case 7 => case 8 =>
    }
  }

  lemma HeaderTagMiddle(i: int)
    requires 9 <= i < 18
    ensures Headers[i] == Tag(Fields[i])
  {
    match i {
      case 9 => case 10 => case 11 => case 12 => case 13 =>
      case 14 => case 15 => case 16 => case 17 =>
    }
  }

  lemma HeaderTagLast(i: int)
    requires 18 <= i < 25
    ensures Headers[i] == Tag(Fields[i])
  {
    match i {
      case 18 => case 19 => case 20 => case 21 => case 22 => case 23 => case 24 =>
    }
  }

  /** Every field is declared once and every column has its own tag. */
  lemma HeadersDistinct()
    ensures forall i, j :: 0 <= i < j < |Fields| ==> Fields[i] != Fields[j]
    ensures forall i, j :: 0 <= i < j < |Headers| ==> Headers[i] != Headers[j]
  {
    FieldsDistinct();
  }

  lemma FieldsDistinct()
    ensures forall i, j :: 0 <= i < j < |Fields| ==> Fields[i] != Fields[j]
  {
    TagsDistinct();
    forall i, j | 0 <= i < j < |Fields|
      ensures Fields[i] != Fields[j]
    {
      HeaderTag(i);
      HeaderTag(j);
    }
  }

  lemma TagsDistinct()
    ensures forall i, j :: 0 <= i < j < |Headers| ==> Headers[i] != Headers[j]
  {
  }
}

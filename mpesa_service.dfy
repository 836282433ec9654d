/** The logic of the M-Pesa service that does not touch the network: the
    phone number rewrite, the timestamp squeeze, and what a payment callback
    does to the transaction table. */
module MpesaService {
  import opened Common
  import Schema
  import opened MpesaValidator

  predicate StartsWith(s: string, prefix: string) {
    |prefix| <= |s| && s[..|prefix|] == prefix
  }

  // ---------------------------------------------------------- phone rewrite

  /** `formatPhoneNumber`: "+254…" loses its '+', "0…" becomes "254…", and
      anything else is left alone. */
  function FormatPhoneNumber(phone: string): string {
    if StartsWith(phone, "+254") then phone[1..]
    else if StartsWith(phone, "0") then "254" + phone[1..]
    else phone
  }

  /** The numbers left alone are exactly those that start neither with
      "+254" nor with "0": every rewrite changes the length. */
  lemma FormatPhoneFixedPoints(phone: string)
    ensures FormatPhoneNumber(phone) == phone <==> !StartsWith(phone, "+254") && !StartsWith(phone, "0")
  {
    if StartsWith(phone, "+254") {
      assert |FormatPhoneNumber(phone)| == |phone| - 1;
    } else if StartsWith(phone, "0") {
      assert |FormatPhoneNumber(phone)| == |phone| + 2;
    }
  }

  /** Formatting a formatted number changes nothing more. */
  lemma FormatPhoneIdempotent(phone: string)
    ensures FormatPhoneNumber(FormatPhoneNumber(phone)) == FormatPhoneNumber(phone)
  {
    var r := FormatPhoneNumber(phone);
    if StartsWith(phone, "+254") {
      assert r[..3] == phone[1..4] == "254";
      assert !StartsWith(r, "0") by { assert r[0] == r[..3][0]; }
    } else if StartsWith(phone, "0") {
      assert r[0] == '2';
    }
  }

  /** A number the phone schema accepts is formatted into "254" followed by
      eight to ten digits: the form the Daraja API takes. */
  lemma FormattedAcceptedPhone(phone: string)
    requires IsKenyanPhone(phone)
    ensures StartsWith(FormatPhoneNumber(phone), "254")
    ensures AllDigits(FormatPhoneNumber(phone))
    ensures 11 <= |FormatPhoneNumber(phone)| <= 13
    ensures forall i :: 0 <= i < |PhonePrefixes| && PrefixThenDigits(phone, PhonePrefixes[i]) ==>
      FormatPhoneNumber(phone) == "254" + (if i >= 2 then [phone[1]] else []) + phone[|PhonePrefixes[i]|..]
  {
    PhoneShape(phone);
    PhonePatternByCharacters(phone);
    var r := FormatPhoneNumber(phone);
    if StartsWith(phone, "+254") {
      assert forall k :: 0 <= k < |r| ==> r[k] == phone[k + 1];
      assert r[..3] == phone[1..4];
    } else if StartsWith(phone, "0") {
      assert forall k :: 3 <= k < |r| ==> r[k] == phone[k - 2];
      assert r[..3] == "254";
    } else {
      assert phone[0] != '+';
      assert !(phone[0] == '0');
    }
    forall i | 0 <= i < |PhonePrefixes| && PrefixThenDigits(phone, PhonePrefixes[i])
      ensures r == "254" + (if i >= 2 then [phone[1]] else []) + phone[|PhonePrefixes[i]|..]
    {
      var p := PhonePrefixes[i];
      assert phone[..|p|] == p;
      if i == 0 {
        assert phone[1..] == phone[1..4] + phone[4..];
        assert phone[1..4] == p[1..4] == "254";
      } else if i == 1 {
        assert phone == phone[..3] + phone[3..];
        assert phone[0] == '2';
      } else {
        assert phone[0] == '0';
        assert phone[1..] == [phone[1]] + phone[2..];
      }
    }
  }

  // -------------------------------------------------------------- timestamp

  /** The characters `/[-:T.Z]/g` deletes. */
  const TimestampSeparators: set<char> := {'-', ':', 'T', '.', 'Z'}

  /** The text with every separator deleted. */
  function StripSeparators(s: string): (r: string)
    ensures |r| <= |s|
    ensures forall k :: 0 <= k < |r| ==> r[k] !in TimestampSeparators
  {
    if s == [] then []
    else (if s[0] in TimestampSeparators then [] else [s[0]]) + StripSeparators(s[1..])
  }

  /** Stripping deletes the separators and nothing else: each other
      character is kept as often as the text held it. */
  lemma {:induction false} StripKeepsOtherCharacters(s: string)
    ensures forall c :: multiset(StripSeparators(s))[c] == if c in TimestampSeparators then 0 else multiset(s)[c]
    decreases |s|
  {
    if s != [] {
      StripKeepsOtherCharacters(s[1..]);
      assert s == [s[0]] + s[1..];
      assert multiset(s) == multiset([s[0]]) + multiset(s[1..]);
    }
  }

  /** The text `getTimestamp` makes of an ISO instant: the separators
      removed and at most the first fourteen characters kept. */
  function Timestamp(iso: string): (r: string)
    ensures |r| == if |StripSeparators(iso)| < 14 then |StripSeparators(iso)| else 14
  {
    var t := StripSeparators(iso);
    if |t| <= 14 then t else t[..14]
  }

  lemma {:induction false} StripConcat(a: string, b: string)
    ensures StripSeparators(a + b) == StripSeparators(a) + StripSeparators(b)
    decreases |a|
  {
    if a == [] {
      assert a + b == b;
    } else {
      assert (a + b)[1..] == a[1..] + b;
      StripConcat(a[1..], b);
    }
  }

  lemma {:induction false} StripDigits(s: string)
    requires AllDigits(s)
    ensures StripSeparators(s) == s
    decreases |s|
  {
    if s != [] {
      assert AllDigits(s[1..]) by { assert forall k :: 0 <= k < |s| - 1 ==> s[1..][k] == s[k + 1]; }
      StripDigits(s[1..]);
      assert s == [s[0]] + s[1..];
    }
  }

  /** `s[lo..hi]` is all digits. */
  predicate DigitsAt(s: string, lo: nat, hi: nat)
    requires lo <= hi <= |s|
  {
    forall k :: lo <= k < hi ==> IsDigit(s[k])
  }

  /** What `toISOString` writes for a year from 0 to 9999:
      YYYY-MM-DDTHH:mm:ss.sssZ. */
  predicate IsIsoInstant(s: string) {
    && |s| == 24
    && s[4] == '-' && s[7] == '-' && s[10] == 'T' && s[13] == ':' && s[16] == ':' && s[19] == '.' && s[23] == 'Z'
    && DigitsAt(s, 0, 4) && DigitsAt(s, 5, 7) && DigitsAt(s, 8, 10) && DigitsAt(s, 11, 13)
    && DigitsAt(s, 14, 16) && DigitsAt(s, 17, 19) && DigitsAt(s, 20, 23)
  }

  /** A run of digits at `lo..hi` closed by a separator at `hi` survives
      whole, and the separator goes. */
  lemma {:induction false} StripSegment(s: string, lo: nat, hi: nat)
    requires lo <= hi < |s| && DigitsAt(s, lo, hi) && s[hi] in TimestampSeparators
    ensures StripSeparators(s[lo..]) == s[lo..hi] + StripSeparators(s[hi + 1..])
  {
    assert AllDigits(s[lo..hi]) by {
      assert forall k :: 0 <= k < hi - lo ==> s[lo..hi][k] == s[lo + k];
    }
    StripDigits(s[lo..hi]);
    assert s[lo..] == s[lo..hi] + ([s[hi]] + s[hi + 1..]);
    StripConcat(s[lo..hi], [s[hi]] + s[hi + 1..]);
    StripConcat([s[hi]], s[hi + 1..]);
  }

  /** The timestamp of an ISO instant is its fourteen date and time digits,
      YYYYMMDDHHmmss: the milliseconds fall past the cut. */
  lemma {:induction false} TimestampOfIsoInstant(s: string)
    requires IsIsoInstant(s)
    ensures Timestamp(s) == s[0..4] + s[5..7] + s[8..10] + s[11..13] + s[14..16] + s[17..19]
    ensures |Timestamp(s)| == 14 && AllDigits(Timestamp(s))
  {
    assert s[0..] == s;
    StripSegment(s, 0, 4);
    StripSegment(s, 5, 7);
    StripSegment(s, 8, 10);
    StripSegment(s, 11, 13);
    StripSegment(s, 14, 16);
    StripSegment(s, 17, 19);
    StripSegment(s, 20, 23);
    assert StripSeparators(s[24..]) == [];
    var digits := s[0..4] + s[5..7] + s[8..10] + s[11..13] + s[14..16] + s[17..19];
    assert StripSeparators(s) == digits + s[20..23];
    assert |digits| == 14;
    assert (digits + s[20..23])[..14] == digits;
    assert AllDigits(digits) by {
      forall k | 0 <= k < 14
        ensures IsDigit(digits[k])
      {
        var src := if k < 4 then k else if k < 6 then k + 1 else if k < 8 then k + 2
                   else if k < 10 then k + 3 else if k < 12 then k + 4 else k + 5;
        assert digits[k] == s[src];
      }
    }
  }

  // --------------------------------------------------------------- callback

  const ReceiptItemName: string := "MpesaReceiptNumber"

  /** A row of `mpesa_transactions`, times as instants. */
  datatype Transaction = Transaction(
    id: nat, bookingId: int, phoneNumber: string, amount: real, referenceCode: string,
    receipt: Option<string>, transactionDate: int, status: string, createdAt: int, updatedAt: int)

  /** What the update does to the receipt column: set it, set it to null, or
      leave it alone (a `set` value of `undefined` is dropped). */
  datatype ReceiptChange = SetReceipt(receipt: string) | ClearReceipt | KeepReceipt

  /** `k` is the position `.find` stops at: the first item with that name. */
  predicate FirstReceiptAt(items: seq<CallbackItem>, k: int) {
    0 <= k < |items| && items[k].name == ReceiptItemName && forall j :: 0 <= j < k ==> items[j].name != ReceiptItemName
  }

  /** The position of the first item named `name`. */
  function FirstNamed(items: seq<CallbackItem>, name: string): (r: Option<nat>)
    ensures r.Some? ==> r.value < |items| && items[r.value].name == name
    ensures r.Some? ==> forall j :: 0 <= j < r.value ==> items[j].name != name
    ensures r.None? ==> forall j :: 0 <= j < |items| ==> items[j].name != name
  {
    if items == [] then None
    else if items[0].name == name then Some(0)
    else match FirstNamed(items[1..], name)
      case None => None
      case Some(k) => Some(k + 1)
  }

  /** The text the receipt column gets for an item value; a number is
      written as `numberText` writes it. */
  function ValueText(x: ItemValue, numberText: real -> string): string {
    match x
    case ItemText(s) => s
    case ItemNumber(n) => numberText(n)
  }

  /** The status the callback records. */
  function StatusFor(resultCode: real): (s: string)
    ensures s in Schema.PaymentStatusLabels
    ensures s == "Completed" <==> resultCode == 0.0
    ensures s == "Failed" <==> resultCode != 0.0
  {
    if resultCode == 0.0 then "Completed" else "Failed"
  }

  /** The receipt change a callback asks for: the value of the first
      receipt item of a successful callback that carries metadata, and null
      in every other case. */
  function ReceiptChangeFor(c: StkCallback, numberText: real -> string): (r: ReceiptChange)
    ensures r == ClearReceipt <==>
      (c.resultCode != 0.0 || c.metadata.None? || forall j :: 0 <= j < |c.metadata.value.items| ==> c.metadata.value.items[j].name != ReceiptItemName)
    ensures r.SetReceipt? ==>
      && c.resultCode == 0.0 && c.metadata.Some?
      && exists k :: FirstReceiptAt(c.metadata.value.items, k) && c.metadata.value.items[k].value.Some?
                     && ValueText(c.metadata.value.items[k].value.value, numberText) == r.receipt
    ensures r == KeepReceipt ==>
      && c.resultCode == 0.0 && c.metadata.Some?
      && exists k :: FirstReceiptAt(c.metadata.value.items, k) && c.metadata.value.items[k].value.None?
  {
    if c.resultCode == 0.0 && c.metadata.Some? then
      var items := c.metadata.value.items;
      match FirstNamed(items, ReceiptItemName)
      case None => ClearReceipt
      case Some(k) =>
        assert FirstReceiptAt(items, k);
        if items[k].value.Some? then SetReceipt(ValueText(items[k].value.value, numberText)) else KeepReceipt
    else ClearReceipt
  }

  function NewReceipt(old_: Option<string>, change: ReceiptChange): Option<string> {
    match change
    case SetReceipt(x) => Some(x)
    case ClearReceipt => None
    case KeepReceipt => old_
  }

  /** The update `... where reference_code = checkoutId`: the rows with that
      reference get the status, the receipt change and the update time; no
      other row and no other column changes. */
  function ApplyCallback(rows: seq<Transaction>, checkoutId: string, status: string, change: ReceiptChange, now: int): (r: seq<Transaction>)
    ensures |r| == |rows|
    ensures forall i :: 0 <= i < |rows| && rows[i].referenceCode != checkoutId ==> r[i] == rows[i]
    ensures forall i :: 0 <= i < |rows| && rows[i].referenceCode == checkoutId ==>
      r[i] == rows[i].(status := status, receipt := NewReceipt(rows[i].receipt, change), updatedAt := now)
  {
    seq(|rows|, i requires 0 <= i < |rows| =>
      if rows[i].referenceCode == checkoutId
      then rows[i].(status := status, receipt := NewReceipt(rows[i].receipt, change), updatedAt := now)
      else rows[i])
  }

  /** A callback delivered twice leaves the table as one delivery does. */
  lemma ApplyCallbackIdempotent(rows: seq<Transaction>, checkoutId: string, status: string, change: ReceiptChange, now: int)
    ensures var once := ApplyCallback(rows, checkoutId, status, change, now);
      ApplyCallback(once, checkoutId, status, change, now) == once
  {
    var once := ApplyCallback(rows, checkoutId, status, change, now);
    var twice := ApplyCallback(once, checkoutId, status, change, now);
    forall i | 0 <= i < |rows|
      ensures twice[i] == once[i]
    {
      if rows[i].referenceCode == checkoutId {
        match change
        case SetReceipt(_) =>
        case ClearReceipt =>
        case KeepReceipt =>
      }
    }
  }

  /** A callback whose reference matches no row changes nothing. */
  lemma ApplyCallbackUnknownReference(rows: seq<Transaction>, checkoutId: string, status: string, change: ReceiptChange, now: int)
    requires forall i :: 0 <= i < |rows| ==> rows[i].referenceCode != checkoutId
    ensures ApplyCallback(rows, checkoutId, status, change, now) == rows
  {
  }

  /** Every status in the table is a label of the payment status enum. */
  predicate StatusesValid(rows: seq<Transaction>) {
    forall i :: 0 <= i < |rows| ==> rows[i].status in Schema.PaymentStatusLabels
  }

  /** The transaction table that payment callbacks update. */
  class TransactionTable {
    /** The `mpesa_transactions` rows. */
    var transactions: seq<Transaction>

    ghost predicate Valid()
      reads this
    {
      StatusesValid(transactions)
    }

    constructor (rows: seq<Transaction>)
      requires StatusesValid(rows)
      ensures Valid() && transactions == rows
    {
      transactions := rows;
    }

    /** `processCallback`, given the `stkCallback` member of the callback
        body if there is one and the time of the update. Without one it
        answers false and changes nothing; otherwise it works out the
        receipt, updates the rows whose reference is the checkout request
        id, and answers true. */
    method ProcessCallback(stkCallback: Option<StkCallback>, numberText: real -> string, now: int) returns (ok: bool)
      requires Valid()
      modifies this
      ensures Valid()
      ensures stkCallback.None? ==> !ok && transactions == old(transactions)
      ensures stkCallback.Some? ==>
        var c := stkCallback.value;
        && ok
        && transactions == ApplyCallback(old(transactions), c.checkoutRequestId, StatusFor(c.resultCode),
                                         ReceiptChangeFor(c, numberText), now)
    {
      if stkCallback.None? {
        return false;
      }
      var c := stkCallback.value;
      var receipt := ClearReceipt;
      if c.resultCode == 0.0 && c.metadata.Some? {
        var found := FirstNamed(c.metadata.value.items, ReceiptItemName);
        if found.Some? {
          var item := c.metadata.value.items[found.value];
          receipt := if item.value.Some? then SetReceipt(ValueText(item.value.value, numberText)) else KeepReceipt;
        }
      }
      var status := if c.resultCode == 0.0 then "Completed" else "Failed";
      transactions := ApplyCallback(transactions, c.checkoutRequestId, status, receipt, now);
      ok := true;
    }
  }
}

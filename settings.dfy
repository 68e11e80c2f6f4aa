/** The settings dialogs that write to the store: the credit-card dialog, which saves a closing
    day only when it lies in 1..28, and the initial-balances dialog, which saves the account
    balance and the amount already invested together. */
module Settings {
  import opened Wrappers
  import opened Text
  import opened FinanceData

  /** `parseInt(s)` on the text of a number input: leading white space skipped, an optional
      sign, then the longest run of decimal digits; nothing (NaN) when no digit follows. The
      `0x` prefix that `parseInt` reads as hexadecimal is not handled: a number input never
      yields one. */
  function ParseInt(s: string): Option<int>
  {
    var t := TrimStart(s);
    var signed := t != [] && (t[0] == '-' || t[0] == '+');
    var body := if signed then t[1..] else t;
    var ds := LeadingDigits(body);
    if ds == [] then None
    else if signed && t[0] == '-' then Some(0 - NumberValue(ds))
    else Some(NumberValue(ds))
  }

  /** The closing-day input's change handler, `parseInt(value) || 1`: NaN and 0 become 1. */
  function ClosingDayInput(text: string): (day: int)
    ensures day != 0
    ensures ParseInt(text).None? ==> day == 1
    ensures ParseInt(text).Some? ==> day == (if ParseInt(text).value == 0 then 1 else ParseInt(text).value)
  {
    match ParseInt(text)
    case None => 1
    case Some(n) => if n == 0 then 1 else n
  }

  /** `String(n)` for an integer, as the number input shows its value. */
  function IntToString(n: int): (r: string)
    ensures r != []
  {
    if n < 0 then "-" + NatToString(-n) else NatToString(n)
  }

  /** Text without any digit reads as 1. */
  lemma NoDigitsReadsOne(text: string)
    requires forall k :: 0 <= k < |text| ==> !IsDigit(text[k])
    ensures ClosingDayInput(text) == 1
  {
    var t := TrimStart(text);
    var body := if t != [] && (t[0] == '-' || t[0] == '+') then t[1..] else t;
    if body != [] {
      assert body[0] in text;
    }
  }

  /** The input reads back the day it shows, except that 0 becomes 1. */
  lemma ClosingDayRoundTrip(day: int)
    ensures ClosingDayInput(IntToString(day)) == (if day == 0 then 1 else day)
  {
    if day < 0 {
      NegativeReads(-day);
    } else {
      UnsignedReads(day);
    }
  }

  lemma UnsignedReads(n: nat)
    ensures ParseInt(NatToString(n)) == Some(n as int)
  {
    var ds := NatToString(n);
    LeadingDigitsAppend(ds, []);
    assert ds + [] == ds;
    assert IsDigit(ds[0]);
    var t := TrimStart(ds);
    assert t == ds by {
      assert !IsSpace(ds[0]);
    }
    assert !(t[0] == '-' || t[0] == '+');
    assert LeadingDigits(t) == ds;
  }

  lemma NegativeReads(n: nat)
    ensures ParseInt("-" + NatToString(n)) == Some(0 - n)
  {
    var ds := NatToString(n);
    var s := "-" + ds;
    LeadingDigitsAppend(ds, []);
    assert ds + [] == ds;
    var t := TrimStart(s);
    assert t == s by {
      assert !IsSpace(s[0]);
    }
    assert t[0] == '-' && t[1..] == ds;
    assert LeadingDigits(t[1..]) == ds;
  }

  /** The notice shown when the closing day is out of range. */
  const RangeMessage: string := "Escolha um dia entre 1 e 28."

  /** The credit-card dialog: the day being edited. */
  class CreditCardModal {
    var day: int

    /** The dialog opens on the store's closing day. */
    constructor (store: FinanceStore)
      ensures day == store.cardClosingDay
    {
      day := store.cardClosingDay;
    }

    /** Typing in the day input. */
    method Input(text: string)
      modifies this
      ensures day == ClosingDayInput(text)
    {
      day := ClosingDayInput(text);
    }

    /** `handleSave`: a day in 1..28 is written to the store and nothing else changes; any
        other day leaves the store as it was and brings up the notice. */
    method Save(store: FinanceStore) returns (notice: Option<string>)
      modifies store
      requires store.Valid()
      ensures store.Valid()
      ensures notice.None? <==> 1 <= day <= 28
      ensures notice.Some? ==> notice.value == RangeMessage
      ensures store.cardClosingDay == if 1 <= day <= 28 then day else old(store.cardClosingDay)
      ensures 1 <= old(store.cardClosingDay) <= 28 ==> 1 <= store.cardClosingDay <= 28
      ensures store.transactions == old(store.transactions) && store.goals == old(store.goals)
      ensures store.goalTransactions == old(store.goalTransactions) && store.nextId == old(store.nextId)
      ensures store.categories == old(store.categories) && store.paymentMethods == old(store.paymentMethods)
      ensures store.initialBalance == old(store.initialBalance) && store.initialInvestment == old(store.initialInvestment)
    {
      if 1 <= day <= 28 {
        store.SetCardClosingDay(day);
        notice := None;
      } else {
        notice := Some(RangeMessage);
      }
    }
  }

  /** The initial-balances dialog: the two amounts as displayed. */
  class InitialBalanceModal {
    var balanceStr: string
    var investmentStr: string

    /** The dialog opens on the store's balances written to two decimals, which read back as
        those balances. */
    constructor (store: FinanceStore)
      ensures balanceStr == ToFixed2(store.initialBalance) && investmentStr == ToFixed2(store.initialInvestment)
      ensures ParseFixed2(balanceStr) == store.initialBalance && ParseFixed2(investmentStr) == store.initialInvestment
    {
      balanceStr := ToFixed2(store.initialBalance);
      investmentStr := ToFixed2(store.initialInvestment);
      ToFixed2RoundTrip(store.initialBalance);
      ToFixed2RoundTrip(store.initialInvestment);
    }

    /** `handleCurrencyInputChange` on the balance field. */
    method EditBalance(raw: string)
      modifies this
      ensures balanceStr == AmountInput(raw) && investmentStr == old(investmentStr)
      ensures ParseFixed2(balanceStr) == CentsFromInput(raw)
    {
      AmountInputParses(raw);
      balanceStr := AmountInput(raw);
    }

    /** `handleCurrencyInputChange` on the investment field. */
    method EditInvestment(raw: string)
      modifies this
      ensures investmentStr == AmountInput(raw) && balanceStr == old(balanceStr)
      ensures ParseFixed2(investmentStr) == CentsFromInput(raw)
    {
      AmountInputParses(raw);
      investmentStr := AmountInput(raw);
    }

    /** `handleSave`: both amounts are read back and written in one call. */
    method Save(store: FinanceStore)
      modifies store
      requires store.Valid()
      ensures store.Valid()
      ensures store.initialBalance == ParseFixed2(balanceStr)
      ensures store.initialInvestment == ParseFixed2(investmentStr)
      ensures store.transactions == old(store.transactions) && store.goals == old(store.goals)
      ensures store.goalTransactions == old(store.goalTransactions) && store.nextId == old(store.nextId)
      ensures store.categories == old(store.categories) && store.paymentMethods == old(store.paymentMethods)
      ensures store.cardClosingDay == old(store.cardClosingDay)
    {
      store.SetInitialBalances(ParseFixed2(balanceStr), ParseFixed2(investmentStr));
    }
  }
}

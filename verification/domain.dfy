/** Money, currencies, wallets and the pure allocators run inside the wallet lock. */
module Domain {

  /** Money is an integer count of 10^-4 units (the ledger column is NUMERIC(18,4)). */
  type Money = int

  datatype Option<+T> = None | Some(value: T)

  datatype Currency = GC | SCUnplayed | SCRedeemable

  datatype Family = FamilyUnknown | FamilyGC | FamilySC

  datatype Error =
    | InvalidAmount
    | InsufficientFunds
    | UnsupportedCurrency
    | PlayerNotFound
    | PlayerNotActive
    | Restricted
    | WinExceedsCeiling
    | RollbackNotFound
    | RollbackUnsupported
    | RollbackAlready
    | TransactionConflict
    | TransactionPending
    | IdempotencyMismatch
    | Unavailable

  datatype Result<+T> = Ok(value: T) | Err(error: Error) {

    predicate IsFailure() { Err? }

    function PropagateFailure<U>(): (r: Result<U>)
      requires IsFailure()
    {
      Err(error)
    }

    function Extract(): T
      requires !IsFailure()
    {
      value
    }
  }

  /** One debit or credit line of an allocation. */
  datatype Line = Line(currency: Currency, amount: Money)

  /** One row of the wallets table. */
  datatype Wallet = Wallet(gc: Money, scUnplayed: Money, scRedeemable: Money) {

    function SCTotal(): Money { scUnplayed + scRedeemable }

    function BalanceFor(c: Currency): Money {
      match c
      case GC => gc
      case SCUnplayed => scUnplayed
      case SCRedeemable => scRedeemable
    }

    function Plus(c: Currency, m: Money): Wallet {
      match c
      case GC => this.(gc := gc + m)
      case SCUnplayed => this.(scUnplayed := scUnplayed + m)
      case SCRedeemable => this.(scRedeemable := scRedeemable + m)
    }

    predicate NonNegative() { gc >= 0 && scUnplayed >= 0 && scRedeemable >= 0 }

    /** What a stake of the family may draw on. */
    function Liquidity(family: Family): Money {
      match family
      case FamilyGC => gc
      case FamilySC => SCTotal()
      case FamilyUnknown => 0
    }
  }

  const ZERO_WALLET := Wallet(0, 0, 0)

  function MinMoney(a: Money, b: Money): Money { if a < b then a else b }

  // --------------------------------------------------------------------------
  // Allocation plans
  // --------------------------------------------------------------------------

  /** The two-slot debit and credit slices append only the lines that carry a positive amount. */
  function PositiveOf(a: Line, b: Line): seq<Line> {
    (if a.amount > 0 then [a] else []) + (if b.amount > 0 then [b] else [])
  }

  function AllocateBet(w: Wallet, family: Family, amount: Money): Result<seq<Line>> {
    if amount <= 0 then Err(InvalidAmount)
    else match family
      case FamilyGC =>
        if w.gc < amount then Err(InsufficientFunds) else Ok([Line(GC, amount)])
      case FamilySC =>
        if w.SCTotal() < amount then Err(InsufficientFunds)
        else
          var fromUnplayed := MinMoney(w.scUnplayed, amount);
          Ok(PositiveOf(Line(SCUnplayed, fromUnplayed), Line(SCRedeemable, amount - fromUnplayed)))
      case FamilyUnknown => Err(UnsupportedCurrency)
  }

  function AllocateWin(family: Family, amount: Money): Result<Line> {
    if amount <= 0 then Err(InvalidAmount)
    else match family
      case FamilyGC => Ok(Line(GC, amount))
      case FamilySC => Ok(Line(SCRedeemable, amount))
      case FamilyUnknown => Err(UnsupportedCurrency)
  }

  /** A credit in SC_UNPLAYED is dropped, as the code's switch has no arm for it. */
  function ApplyWin(w: Wallet, credit: Line): Wallet {
    if credit.currency == SCUnplayed then w else w.Plus(credit.currency, credit.amount)
  }

  function AllocatePurchase(gc: Money, scPromo: Money): Result<seq<Line>> {
    if gc < 0 || scPromo < 0 then Err(InvalidAmount)
    else if gc <= 0 && scPromo <= 0 then Err(InvalidAmount)
    else Ok(PositiveOf(Line(GC, gc), Line(SCUnplayed, scPromo)))
  }

  function AllocatePromoGrant(gc: Money, sc: Money): Result<seq<Line>> {
    if gc < 0 || sc < 0 then Err(InvalidAmount)
    else if gc <= 0 && sc <= 0 then Err(InvalidAmount)
    else AllocatePurchase(gc, sc)
  }

  function AllocateRedeem(w: Wallet, amount: Money): Result<Line> {
    if amount <= 0 then Err(InvalidAmount)
    else if w.scRedeemable < amount then Err(InsufficientFunds)
    else Ok(Line(SCRedeemable, amount))
  }

  function ApplyRedeem(w: Wallet, debit: Line): Wallet {
    w.(scRedeemable := w.scRedeemable - debit.amount)
  }

  // --------------------------------------------------------------------------
  // Applying a plan
  // --------------------------------------------------------------------------

  /** What the lines move in one currency. */
  function SumOf(lines: seq<Line>, c: Currency): Money {
    if lines == [] then 0
    else (if lines[0].currency == c then lines[0].amount else 0) + SumOf(lines[1..], c)
  }

  function Total(lines: seq<Line>): Money {
    if lines == [] then 0 else lines[0].amount + Total(lines[1..])
  }

  function Debited(w: Wallet, debits: seq<Line>): Result<Wallet>
    decreases |debits|
  {
    if debits == [] then
      if w.NonNegative() then Ok(w) else Err(InsufficientFunds)
    else if debits[0].amount <= 0 then Err(InvalidAmount)
    else if w.BalanceFor(debits[0].currency) < debits[0].amount then Err(InsufficientFunds)
    else Debited(w.Plus(debits[0].currency, -debits[0].amount), debits[1..])
  }

  function Credited(w: Wallet, credits: seq<Line>): Wallet
    decreases |credits|
  {
    if credits == [] then w
    else Credited(w.Plus(credits[0].currency, credits[0].amount), credits[1..])
  }

  method ApplyBet(w: Wallet, debits: seq<Line>) returns (r: Result<Wallet>)
    ensures r == Debited(w, debits)
  {
    var out := w;
    var i := 0;
    while i < |debits|
      invariant 0 <= i <= |debits|
      invariant Debited(out, debits[i..]) == Debited(w, debits)
    {
      var d := debits[i];
      if d.amount <= 0 {
        return Err(InvalidAmount);
      }
      if out.BalanceFor(d.currency) < d.amount {
        return Err(InsufficientFunds);
      }
      out := out.Plus(d.currency, -d.amount);
      i := i + 1;
    }
    if out.gc < 0 || out.scUnplayed < 0 || out.scRedeemable < 0 {
      return Err(InsufficientFunds);
    }
    return Ok(out);
  }

  method ApplyPurchase(w: Wallet, credits: seq<Line>) returns (out: Wallet)
    ensures out == Credited(w, credits)
  {
    out := w;
    var i := 0;
    while i < |credits|
      invariant 0 <= i <= |credits|
      invariant Credited(out, credits[i..]) == Credited(w, credits)
    {
      out := out.Plus(credits[i].currency, credits[i].amount);
      i := i + 1;
    }
  }

  // --------------------------------------------------------------------------
  // What the plans mean
  // --------------------------------------------------------------------------

  predicate AllPositive(lines: seq<Line>) {
    forall i :: 0 <= i < |lines| ==> lines[i].amount > 0
  }

  lemma {:induction false} SumOfNonNegative(lines: seq<Line>, c: Currency)
    requires AllPositive(lines)
    ensures SumOf(lines, c) >= 0
  {
    if lines != [] { SumOfNonNegative(lines[1..], c); }
  }

  /** Applying a debit plan succeeds exactly when every line is positive and no column is
      overdrawn by the plan as a whole, and then each column falls by its own lines. */
  lemma {:induction false} DebitedExact(w: Wallet, debits: seq<Line>)
    requires w.NonNegative()
    ensures Debited(w, debits).Ok? <==>
      AllPositive(debits) && forall c: Currency :: SumOf(debits, c) <= w.BalanceFor(c)
    ensures Debited(w, debits).Ok? ==>
      var out := Debited(w, debits).value;
      out.NonNegative() && forall c: Currency :: out.BalanceFor(c) == w.BalanceFor(c) - SumOf(debits, c)
    decreases |debits|
  {
    if debits != [] {
      var d, rest := debits[0], debits[1..];
      assert forall c: Currency :: SumOf(debits, c) == (if d.currency == c then d.amount else 0) + SumOf(rest, c);
      if d.amount > 0 && d.amount <= w.BalanceFor(d.currency) {
        var w' := w.Plus(d.currency, -d.amount);
        DebitedExact(w', rest);
        assert AllPositive(debits) <==> AllPositive(rest) by {
          assert AllPositive(rest) ==> forall i :: 1 <= i < |debits| ==> debits[i] == rest[i - 1];
          assert forall i :: 0 <= i < |rest| ==> rest[i] == debits[i + 1];
        }
        assert forall c: Currency :: w'.BalanceFor(c) - SumOf(rest, c) == w.BalanceFor(c) - SumOf(debits, c);
        assert (forall c: Currency :: SumOf(rest, c) <= w'.BalanceFor(c)) <==>
               (forall c: Currency :: SumOf(debits, c) <= w.BalanceFor(c));
      } else {
        if d.amount > 0 && AllPositive(debits) {
          SumOfNonNegative(rest, d.currency);
          assert SumOf(debits, d.currency) > w.BalanceFor(d.currency);
        }
      }
    }
  }

  lemma {:induction false} CreditedExact(w: Wallet, credits: seq<Line>)
    ensures forall c: Currency :: Credited(w, credits).BalanceFor(c) == w.BalanceFor(c) + SumOf(credits, c)
    decreases |credits|
  {
    if credits != [] { CreditedExact(w.Plus(credits[0].currency, credits[0].amount), credits[1..]); }
  }

  lemma SumOfOne(a: Line)
    ensures forall c: Currency :: SumOf([a], c) == if a.currency == c then a.amount else 0
    ensures Total([a]) == a.amount
  {
    assert [a][1..] == [];
  }

  lemma PositivePair(a: Line, b: Line)
    ensures var r := PositiveOf(a, b);
      && AllPositive(r)
      && (forall c: Currency :: SumOf(r, c) ==
            (if a.currency == c && a.amount > 0 then a.amount else 0) +
            (if b.currency == c && b.amount > 0 then b.amount else 0))
      && Total(r) == (if a.amount > 0 then a.amount else 0) + (if b.amount > 0 then b.amount else 0)
  {
    var r := PositiveOf(a, b);
    if a.amount > 0 && b.amount > 0 {
      assert r == [a, b] && r[1..] == [b];
      SumOfOne(b);
    } else if a.amount > 0 {
      SumOfOne(a);
    } else if b.amount > 0 {
      SumOfOne(b);
    }
  }

  /** A stake is accepted exactly when it is positive, the family exists and its liquidity
      covers it.  An accepted stake debits the family's columns by exactly its amount, spends
      SC_REDEEMABLE only for what SC_UNPLAYED cannot cover, and always applies cleanly: the
      defensive overdraw check can not fire on a plan made against the same wallet. */
  lemma AllocateBetExact(w: Wallet, family: Family, amount: Money)
    requires w.NonNegative()
    ensures AllocateBet(w, family, amount).Ok? <==>
      amount > 0 && family != FamilyUnknown && amount <= w.Liquidity(family)
    ensures amount > 0 && family != FamilyUnknown && amount > w.Liquidity(family) ==>
      AllocateBet(w, family, amount) == Err(InsufficientFunds)
    ensures AllocateBet(w, family, amount).Ok? ==>
      var debits := AllocateBet(w, family, amount).value;
      && 1 <= |debits| <= 2 && AllPositive(debits) && Total(debits) == amount
      && SumOf(debits, GC) == (if family == FamilyGC then amount else 0)
      && SumOf(debits, SCRedeemable) == (if family == FamilySC && amount > w.scUnplayed then amount - w.scUnplayed else 0)
      && SumOf(debits, SCUnplayed) + SumOf(debits, SCRedeemable) == (if family == FamilySC then amount else 0)
      && (|debits| == 2 ==> debits[0].currency == SCUnplayed && debits[1].currency == SCRedeemable)
      && Debited(w, debits).Ok?
      && Debited(w, debits).value.NonNegative()
      && Debited(w, debits).value.Liquidity(family) == w.Liquidity(family) - amount
  {
    if AllocateBet(w, family, amount).Ok? {
      var debits := AllocateBet(w, family, amount).value;
      if family == FamilySC {
        var u := MinMoney(w.scUnplayed, amount);
        PositivePair(Line(SCUnplayed, u), Line(SCRedeemable, amount - u));
      } else {
        SumOfOne(Line(GC, amount));
      }
      DebitedExact(w, debits);
    }
  }

  /** Purchases and promo grants issue what was asked in GC and SC_UNPLAYED and can never
      mint SC_REDEEMABLE. */
  lemma IssuanceNeverMintsRedeemable(w: Wallet, gc: Money, sc: Money)
    ensures AllocatePurchase(gc, sc) == AllocatePromoGrant(gc, sc)
    ensures AllocatePurchase(gc, sc).Ok? <==> gc >= 0 && sc >= 0 && gc + sc > 0
    ensures AllocatePurchase(gc, sc).Ok? ==>
      var credits := AllocatePurchase(gc, sc).value;
      && |credits| >= 1 && AllPositive(credits)
      && Credited(w, credits) == Wallet(w.gc + gc, w.scUnplayed + sc, w.scRedeemable)
      && SumOf(credits, GC) == gc && SumOf(credits, SCUnplayed) == sc && SumOf(credits, SCRedeemable) == 0
  {
    if AllocatePurchase(gc, sc).Ok? {
      PositivePair(Line(GC, gc), Line(SCUnplayed, sc));
      var out := Credited(w, AllocatePurchase(gc, sc).value);
      CreditedExact(w, AllocatePurchase(gc, sc).value);
      assert out.BalanceFor(GC) == w.gc + gc;
      assert out.BalanceFor(SCUnplayed) == w.scUnplayed + sc;
      assert out.BalanceFor(SCRedeemable) == w.scRedeemable;
    }
  }
}

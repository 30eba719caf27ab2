/**
 * Daybook vouchers: payload validation, debit/credit totals, the automatic
 * offsetting line of a one-sided contra voucher, and the balance rule that
 * `create_voucher` and `update_voucher` apply before storing.
 */
module Vouchers {
  import opened Wrappers
  import opened Text

  const DateRequired: string := "date required"
  const NoPostingLine: string := "at least one ledger line with positive amount required"
  const NotBalancedMessage: string := "voucher not balanced (debit != credit)"

  /** The largest debit/credit difference still accepted as balanced. */
  const Tolerance: real := 0.009

  /** One ledger line; a text field not sent is "", an amount not sent is None. */
  datatype Line = Line(account: string, kind: string, amount: Option<real>, details: string)

  /** `float(l.get("amount") or 0)`: a missing amount counts as 0. */
  function AmountOf(l: Line): real {
    l.amount.GetOr(0.0)
  }

  /** A line naming an account with a positive amount. */
  predicate IsPostingLine(l: Line) {
    l.account != "" && AmountOf(l) > 0.0
  }

  /** `any(l.get("account") and float(l.get("amount") or 0) > 0 for l in lines)`. */
  function AnyPostingLine(lines: seq<Line>): (b: bool)
    ensures b <==> exists i :: 0 <= i < |lines| && IsPostingLine(lines[i])
  {
    if lines == [] then false
    else AnyPostingLine(lines[..|lines| - 1]) || IsPostingLine(lines[|lines| - 1])
  }

  /** The JSON body of a voucher request; an absent `lines` is []. */
  datatype Payload = Payload(date: string, kind: Option<string>, no: Option<string>, narration: Option<string>,
                             lines: seq<Line>, allowUnbalanced: bool)

  /**
   * `validate_voucher_payload`: the date is checked first, then that some
   * line has an account and a positive amount.  None means valid.
   */
  function ValidateVoucherPayload(p: Payload): (err: Option<string>)
    ensures err == Some(DateRequired) <==> p.date == ""
    ensures err == Some(NoPostingLine) <==>
      p.date != "" && forall i :: 0 <= i < |p.lines| ==> !IsPostingLine(p.lines[i])
    ensures err == None <==> p.date != "" && exists i :: 0 <= i < |p.lines| && IsPostingLine(p.lines[i])
  {
    if p.date == "" then Some(DateRequired)
    else if p.lines == [] || !AnyPostingLine(p.lines) then Some(NoPostingLine)
    else None
  }

  /** The sum of the amounts of the lines whose type is `kind`. */
  function SumOfKind(lines: seq<Line>, kind: string): real {
    if lines == [] then 0.0
    else
      var l := lines[|lines| - 1];
      SumOfKind(lines[..|lines| - 1], kind) + (if l.kind == kind then AmountOf(l) else 0.0)
  }

  /** A total over lines whose amounts are all non-negative is non-negative. */
  lemma {:induction false} SumOfKindNonNegative(lines: seq<Line>, kind: string)
    ensures (forall i :: 0 <= i < |lines| ==> AmountOf(lines[i]) >= 0.0) ==> SumOfKind(lines, kind) >= 0.0
  {
    if lines != [] {
      SumOfKindNonNegative(lines[..|lines| - 1], kind);
    }
  }

  /** `compute_totals`: (debit total, credit total). */
  function ComputeTotals(lines: seq<Line>): (r: (real, real))
    ensures lines == [] ==> r == (0.0, 0.0)
    ensures (forall i :: 0 <= i < |lines| ==> AmountOf(lines[i]) >= 0.0) ==> r.0 >= 0.0 && r.1 >= 0.0
  {
    SumOfKindNonNegative(lines, "debit");
    SumOfKindNonNegative(lines, "credit");
    (SumOfKind(lines, "debit"), SumOfKind(lines, "credit"))
  }

  /** Totals split over concatenation. */
  lemma {:induction false} SumOfKindAppend(a: seq<Line>, b: seq<Line>, kind: string)
    ensures SumOfKind(a + b, kind) == SumOfKind(a, kind) + SumOfKind(b, kind)
  {
    if b == [] {
      assert a + b == a;
    } else {
      assert (a + b)[..|a + b| - 1] == a + b[..|b| - 1];
      SumOfKindAppend(a, b[..|b| - 1], kind);
    }
  }

  /**
   * Appending a line adds its amount to the debit total if it is a debit,
   * to the credit total if it is a credit, and to neither otherwise.
   */
  lemma TotalsWithLine(lines: seq<Line>, l: Line)
    ensures ComputeTotals(lines + [l]).0 == ComputeTotals(lines).0 + (if l.kind == "debit" then AmountOf(l) else 0.0)
    ensures ComputeTotals(lines + [l]).1 == ComputeTotals(lines).1 + (if l.kind == "credit" then AmountOf(l) else 0.0)
  {
    assert (lines + [l])[..|lines|] == lines;
  }

  /** Lines of any other type, and lines without an amount, change neither total. */
  lemma TotalsIgnoreLine(lines: seq<Line>, l: Line)
    requires (l.kind != "debit" && l.kind != "credit") || l.amount.None?
    ensures ComputeTotals(lines + [l]) == ComputeTotals(lines)
  {
    TotalsWithLine(lines, l);
  }

  /** `[l for l in lines if float(l.get("amount") or 0) > 0]`. */
  function PositiveLines(lines: seq<Line>): (r: seq<Line>)
    ensures |r| <= |lines|
    ensures forall j :: 0 <= j < |r| ==> AmountOf(r[j]) > 0.0 && r[j] in lines
    ensures r == [] <==> forall j :: 0 <= j < |lines| ==> AmountOf(lines[j]) <= 0.0
  {
    if lines == [] then []
    else
      var l := lines[|lines| - 1];
      var prefix := PositiveLines(lines[..|lines| - 1]);
      if AmountOf(l) > 0.0 then prefix + [l] else prefix
  }

  /** Exactly one line, the `i`-th, has a positive amount. */
  predicate SolePositiveAt(lines: seq<Line>, i: int) {
    0 <= i < |lines| && AmountOf(lines[i]) > 0.0 &&
    forall j :: 0 <= j < |lines| && j != i ==> AmountOf(lines[j]) <= 0.0
  }

  /** The filter has one element exactly when one line is positive, and it is that line. */
  lemma {:induction false} OnePositiveLine(lines: seq<Line>)
    ensures |PositiveLines(lines)| == 1 <==> exists i :: SolePositiveAt(lines, i)
    ensures forall i :: SolePositiveAt(lines, i) ==> PositiveLines(lines) == [lines[i]]
  {
    if lines != [] {
      var n := |lines| - 1;
      var prefix := lines[..n];
      OnePositiveLine(prefix);
      if AmountOf(lines[n]) > 0.0 {
        if PositiveLines(prefix) == [] {
          assert SolePositiveAt(lines, n);
        }
        forall i | SolePositiveAt(lines, i) ensures PositiveLines(lines) == [lines[i]] {
          assert i == n;
        }
      } else {
        if exists i :: SolePositiveAt(lines, i) {
          var i :| SolePositiveAt(lines, i);
          assert SolePositiveAt(prefix, i);
        }
        if exists i :: SolePositiveAt(prefix, i) {
          var i :| SolePositiveAt(prefix, i);
          assert SolePositiveAt(lines, i);
        }
        forall i | SolePositiveAt(lines, i) ensures PositiveLines(lines) == [lines[i]] {
          assert SolePositiveAt(prefix, i);
        }
      }
    }
  }

  /** The counter account of a contra line: "Bank" when the account mentions a bank, otherwise "Cash". */
  function CounterAccount(account: string): (r: string)
    ensures r == "Bank" || r == "Cash"
    ensures r == "Bank" <==> exists i :: 0 <= i <= |account| - 4 && StartsWith(Lower(account)[i..], "bank")
  {
    ContainsAt(Lower(account), "bank");
    if Contains(Lower(account), "bank") then "Bank" else "Cash"
  }

  /** The offsetting line for `l`: same amount, opposite type (a typeless line is offset by a debit). */
  function ContraLine(l: Line): (r: Line)
    ensures r.account == CounterAccount(l.account) && r.amount == Some(AmountOf(l)) && r.details == ""
    ensures l.kind == "debit" ==> r.kind == "credit"
    ensures l.kind != "debit" ==> r.kind == "debit"
  {
    Line(CounterAccount(l.account), if l.kind == "debit" then "credit" else "debit", Some(AmountOf(l)), "")
  }

  /** The lines `auto_allocate_contra` leaves in the list it is given. */
  function AutoAllocated(lines: seq<Line>, voucherType: Option<string>): (r: seq<Line>)
    ensures |r| == |lines| || |r| == |lines| + 1
    ensures r[..|lines|] == lines
  {
    if voucherType != Some("contra") then lines
    else
      var nonzero := PositiveLines(lines);
      if |nonzero| == 1 then lines + [ContraLine(nonzero[0])] else lines
  }

  /**
   * Only a contra voucher with exactly one positive line changes: it gains
   * one line offsetting that line, after all the existing ones.
   */
  lemma AutoAllocatedCases(lines: seq<Line>, voucherType: Option<string>)
    ensures (voucherType != Some("contra") || !exists i :: SolePositiveAt(lines, i)) ==>
      AutoAllocated(lines, voucherType) == lines
    ensures forall i :: voucherType == Some("contra") && SolePositiveAt(lines, i) ==>
      AutoAllocated(lines, voucherType) == lines + [ContraLine(lines[i])]
    ensures forall i :: voucherType == Some("contra") && SolePositiveAt(lines, i) ==>
      var added := AutoAllocated(lines, voucherType)[|lines|];
      && added.amount == Some(AmountOf(lines[i])) && added.details == ""
      && added.kind == (if lines[i].kind == "debit" then "credit" else "debit")
      && (added.account == "Bank" <==> Contains(Lower(lines[i].account), "bank"))
      && (added.account == "Bank" || added.account == "Cash")
  {
    OnePositiveLine(lines);
  }

  /**
   * A contra voucher whose one positive line is a debit or a credit, all
   * other lines being zero, balances exactly once the offset is added.
   */
  lemma ContraBalances(lines: seq<Line>, i: int)
    requires SolePositiveAt(lines, i)
    requires lines[i].kind == "debit" || lines[i].kind == "credit"
    requires forall j :: 0 <= j < |lines| && j != i ==> AmountOf(lines[j]) == 0.0
    ensures ComputeTotals(AutoAllocated(lines, Some("contra"))).0 == AmountOf(lines[i])
    ensures ComputeTotals(AutoAllocated(lines, Some("contra"))).1 == AmountOf(lines[i])
  {
    AutoAllocatedCases(lines, Some("contra"));
    SumWithOneNonzero(lines, i, "debit");
    SumWithOneNonzero(lines, i, "credit");
    TotalsWithLine(lines, ContraLine(lines[i]));
  }

  /** A typeless sole line is offset by a debit only: the voucher ends up debit-heavy by its amount. */
  lemma ContraTypelessUnbalanced(lines: seq<Line>, i: int)
    requires SolePositiveAt(lines, i)
    requires lines[i].kind != "debit" && lines[i].kind != "credit"
    requires forall j :: 0 <= j < |lines| && j != i ==> AmountOf(lines[j]) == 0.0
    ensures ComputeTotals(AutoAllocated(lines, Some("contra"))) == (AmountOf(lines[i]), 0.0)
  {
    AutoAllocatedCases(lines, Some("contra"));
    SumWithOneNonzero(lines, i, "debit");
    SumWithOneNonzero(lines, i, "credit");
    TotalsWithLine(lines, ContraLine(lines[i]));
  }

  /** When every line but the `i`-th is zero, a total is that line's amount or nothing. */
  lemma {:induction false} SumWithOneNonzero(lines: seq<Line>, i: int, kind: string)
    requires 0 <= i < |lines|
    requires forall j :: 0 <= j < |lines| && j != i ==> AmountOf(lines[j]) == 0.0
    ensures SumOfKind(lines, kind) == if lines[i].kind == kind then AmountOf(lines[i]) else 0.0
  {
    var n := |lines| - 1;
    if i < n {
      SumWithOneNonzero(lines[..n], i, kind);
    } else {
      SumOfZeros(lines[..n], kind);
    }
  }

  lemma {:induction false} SumOfZeros(lines: seq<Line>, kind: string)
    requires forall j :: 0 <= j < |lines| ==> AmountOf(lines[j]) == 0.0
    ensures SumOfKind(lines, kind) == 0.0
  {
    if lines != [] {
      SumOfZeros(lines[..|lines| - 1], kind);
    }
  }

  /** The Python list object a payload's `lines` refers to. */
  class LineList {
    var items: seq<Line>

    constructor (items: seq<Line>)
      ensures this.items == items
    {
      this.items := items;
    }
  }

  /**
   * `auto_allocate_contra(lines, voucher_type)`: appends the offsetting line
   * to the caller's list in place and returns that same list.
   */
  method AutoAllocateContra(lines: LineList, voucherType: Option<string>) returns (r: LineList)
    modifies lines
    ensures r == lines
    ensures lines.items == AutoAllocated(old(lines.items), voucherType)
  {
    r := lines;
    if voucherType != Some("contra") {
      return;
    }
    var nonzero: seq<Line> := [];
    var i := 0;
    while i < |lines.items|
      invariant 0 <= i <= |lines.items|
      invariant nonzero == PositiveLines(lines.items[..i])
    {
      assert lines.items[..i + 1][..i] == lines.items[..i];
      if AmountOf(lines.items[i]) > 0.0 {
        nonzero := nonzero + [lines.items[i]];
      }
      i := i + 1;
    }
    assert lines.items[..i] == lines.items;
    if |nonzero| == 1 {
      lines.items := lines.items + [ContraLine(nonzero[0])];
    }
  }

  datatype VoucherError = Invalid(message: string) | NotBalanced(dr: real, cr: real) {
    /** The `error` text of the 400 response. */
    function Message(): string {
      match this
      case Invalid(m) => m
      case NotBalanced(_, _) => NotBalancedMessage
    }
  }

  function Abs(x: real): real {
    if x < 0.0 then -x else x
  }

  /**
   * The acceptance rule shared by `create_voucher` and `update_voucher`:
   * validate, allocate the contra offset, and refuse a difference above the
   * tolerance unless `allow_unbalanced` is set.  The result is the lines to store.
   */
  function CheckVoucher(p: Payload): (r: Result<seq<Line>, VoucherError>)
    ensures r.Failure? && r.error.Invalid? <==> ValidateVoucherPayload(p).Some?
    ensures r.Failure? && r.error.Invalid? ==> r.error.message == ValidateVoucherPayload(p).value
    ensures var totals := ComputeTotals(AutoAllocated(p.lines, p.kind));
      (r.Failure? && r.error.NotBalanced? <==>
        ValidateVoucherPayload(p).None? && Abs(totals.0 - totals.1) > Tolerance && !p.allowUnbalanced)
      && (r.Failure? && r.error.NotBalanced? ==> r.error == NotBalanced(totals.0, totals.1))
    ensures r.Success? ==> r.value == AutoAllocated(p.lines, p.kind)
    ensures r.Success? ==>
      (p.allowUnbalanced || Abs(ComputeTotals(r.value).0 - ComputeTotals(r.value).1) <= Tolerance)
  {
    match ValidateVoucherPayload(p)
    case Some(err) => Failure(Invalid(err))
    case None =>
      var lines := AutoAllocated(p.lines, p.kind);
      var (dr, cr) := ComputeTotals(lines);
      if Abs(dr - cr) > Tolerance && !p.allowUnbalanced then Failure(NotBalanced(dr, cr))
      else Success(lines)
  }

  /** A voucher document as stored. */
  datatype StoredVoucher = StoredVoucher(date: string, kind: Option<string>, no: Option<string>,
                                         narration: Option<string>, lines: seq<Line>)

  /** `create_voucher`: an accepted voucher is stored with type "journal", number "" and narration "" by default. */
  function CreateVoucher(p: Payload): (r: Result<StoredVoucher, VoucherError>)
    ensures r.Success? <==> CheckVoucher(p).Success?
    ensures r.Failure? ==> r.error == CheckVoucher(p).error
    ensures r.Success? ==> r.value.lines == CheckVoucher(p).value && r.value.date == p.date
    ensures r.Success? ==> r.value.kind == Some(if p.kind.Some? then p.kind.value else "journal")
    ensures r.Success? ==> r.value.no == Some(p.no.GetOr("")) && r.value.narration == Some(p.narration.GetOr(""))
  {
    match CheckVoucher(p)
    case Failure(e) => Failure(e)
    case Success(lines) =>
      Success(StoredVoucher(p.date, Some(p.kind.GetOr("journal")), Some(p.no.GetOr("")),
                            Some(p.narration.GetOr("")), lines))
  }

  /** `update_voucher`: the same rule; an accepted voucher's fields are stored as sent. */
  function UpdateVoucher(p: Payload): (r: Result<StoredVoucher, VoucherError>)
    ensures r.Success? <==> CheckVoucher(p).Success?
    ensures r.Failure? ==> r.error == CheckVoucher(p).error
    ensures r.Success? ==> r.value.lines == CheckVoucher(p).value && r.value.kind == p.kind
    ensures r.Success? ==> r.value.date == p.date && r.value.no == p.no && r.value.narration == p.narration
  {
    match CheckVoucher(p)
    case Failure(e) => Failure(e)
    case Success(lines) => Success(StoredVoucher(p.date, p.kind, p.no, p.narration, lines))
  }

  const ExampleCash: Line := Line("Cash", "debit", Some(500.0), "")

  /** A journal voucher of one debit line and one credit line, and its totals. */
  lemma DebitCreditPair(date: string, debitAccount: string, dr: real, creditAccount: string, cr: real)
    requires date != "" && debitAccount != "" && dr > 0.0
    ensures var lines := [Line(debitAccount, "debit", Some(dr), ""), Line(creditAccount, "credit", Some(cr), "")];
      && ValidateVoucherPayload(Payload(date, Some("journal"), None, None, lines, false)).None?
      && AutoAllocated(lines, Some("journal")) == lines
      && ComputeTotals(lines) == (dr, cr)
  {
    var d, c := Line(debitAccount, "debit", Some(dr), ""), Line(creditAccount, "credit", Some(cr), "");
    var lines := [d, c];
    assert IsPostingLine(lines[0]);
    TotalsWithLine([], d);
    assert [] + [d] == [d];
    assert ComputeTotals([d]) == (dr, 0.0);
    TotalsWithLine([d], c);
    assert [d] + [c] == lines;
    assert ComputeTotals(lines).0 == dr && ComputeTotals(lines).1 == cr;
  }

  /** Cash 500 debit against Sales 500 credit is accepted as it is. */
  lemma BalancedVoucherExample()
    ensures CreateVoucher(Payload("2024-05-01", Some("journal"), None, None,
              [ExampleCash, Line("Sales", "credit", Some(500.0), "")], false)).Success?
  {
    DebitCreditPair("2024-05-01", "Cash", 500.0, "Sales", 500.0);
  }

  /** A contra voucher with only Cash 500 debit gains a Cash 500 credit line and balances. */
  lemma ContraVoucherExample()
    ensures CreateVoucher(Payload("2024-05-01", Some("contra"), None, None, [ExampleCash], false))
         == Success(StoredVoucher("2024-05-01", Some("contra"), Some(""), Some(""),
              [ExampleCash, Line("Cash", "credit", Some(500.0), "")]))
  {
    assert IsPostingLine(ExampleCash);
    assert SolePositiveAt([ExampleCash], 0);
    AutoAllocatedCases([ExampleCash], Some("contra"));
    assert Lower("Cash") == "cash";
    assert !Contains("cash", "bank") by {
      assert "cash"[..4][0] != "bank"[0];
      assert "cash"[1..] == "ash";
      ContainsNeedsRoom("ash", "bank");
    }
    ContraBalances([ExampleCash], 0);
    var p := Payload("2024-05-01", Some("contra"), None, None, [ExampleCash], false);
    var stored := [ExampleCash, Line("Cash", "credit", Some(500.0), "")];
    assert ContraLine(ExampleCash) == Line("Cash", "credit", Some(500.0), "");
    assert AutoAllocated(p.lines, p.kind) == stored;
    assert AnyPostingLine(p.lines) by { assert IsPostingLine(p.lines[0]); }
    assert ValidateVoucherPayload(p).None?;
    assert CheckVoucher(p) == Success(stored);
  }

  /** Cash 500 debit against Sales 300 credit is refused, reporting both totals. */
  lemma UnbalancedVoucherExample()
    ensures CreateVoucher(Payload("2024-05-01", Some("journal"), None, None,
              [ExampleCash, Line("Sales", "credit", Some(300.0), "")], false))
         == Failure(NotBalanced(500.0, 300.0))
  {
    DebitCreditPair("2024-05-01", "Cash", 500.0, "Sales", 300.0);
  }
}

/**
 * Named sequence counters (`get_next_sequence` in utils.py and app.py,
 * `get_next_seq` in the student-id migration) and the six-digit receipt
 * numbers drawn from the "receipt_no" counter.
 */
module Counters {
  import opened Text

  /** The value a counter holds; a counter that does not exist yet reads as 0. */
  function Current(seqs: map<string, int>, name: string): int {
    if name in seqs then seqs[name] else 0
  }

  /** The counters after one increment of `name` (`$inc` by 1 with upsert). */
  function Advance(seqs: map<string, int>, name: string): (r: map<string, int>)
    ensures r.Keys == seqs.Keys + {name}
    ensures Current(r, name) == Current(seqs, name) + 1
    ensures forall other :: other != name ==> Current(r, other) == Current(seqs, other)
  {
    seqs[name := Current(seqs, name) + 1]
  }

  /** `n` sequential calls for `name`: the final counters and the values returned, in order. */
  function Draws(seqs: map<string, int>, name: string, n: nat): (map<string, int>, seq<int>)
  {
    if n == 0 then (seqs, [])
    else
      var (before, values) := Draws(seqs, name, n - 1);
      (Advance(before, name), values + [Current(before, name) + 1])
  }

  /** After `n` calls the counter stands `n` above where it started. */
  lemma {:induction false} DrawnCounter(seqs: map<string, int>, name: string, n: nat)
    ensures Current(Draws(seqs, name, n).0, name) == Current(seqs, name) + n
  {
    if n > 0 {
      DrawnCounter(seqs, name, n - 1);
    }
  }

  /**
   * Sequential calls return the previous value plus one each time: from a
   * counter at `c` they return c+1, ..., c+n, and leave every other counter alone.
   */
  lemma {:induction false} DrawsAreConsecutive(seqs: map<string, int>, name: string, n: nat)
    ensures |Draws(seqs, name, n).1| == n
    ensures forall i :: 0 <= i < n ==> Draws(seqs, name, n).1[i] == Current(seqs, name) + i + 1
    ensures Current(Draws(seqs, name, n).0, name) == Current(seqs, name) + n
    ensures forall other :: other != name ==> Current(Draws(seqs, name, n).0, other) == Current(seqs, other)
    ensures Draws(seqs, name, n).0.Keys == if n == 0 then seqs.Keys else seqs.Keys + {name}
  {
    if n > 0 {
      DrawsAreConsecutive(seqs, name, n - 1);
    }
  }

  /** A name never used before counts 1, 2, ..., n, with no value returned twice. */
  lemma FreshCounterCountsFromOne(seqs: map<string, int>, name: string, n: nat)
    requires name !in seqs
    ensures Draws(seqs, name, n).1 == seq(n, i => i + 1)
    ensures forall i, j :: 0 <= i < j < n ==> Draws(seqs, name, n).1[i] != Draws(seqs, name, n).1[j]
  {
    DrawsAreConsecutive(seqs, name, n);
  }

  /** The in-store counters: one document per name holding its `seq`. */
  class CounterStore {
    var seqs: map<string, int>

    constructor ()
      ensures seqs == map[]
    {
      seqs := map[];
    }

    /** `get_next_sequence(db, name)`: increments the named counter and returns its new value. */
    method NextSequence(name: string) returns (v: int)
      modifies this
      ensures seqs == Advance(old(seqs), name)
      ensures v == Current(old(seqs), name) + 1 && v == seqs[name]
    {
      v := Current(seqs, name) + 1;
      seqs := seqs[name := v];
    }

    /** A payment's receipt number: the next "receipt_no" value, zero-padded to six digits. */
    method NextReceiptNumber() returns (receiptNo: string)
      modifies this
      ensures seqs == Advance(old(seqs), "receipt_no")
      ensures receiptNo == ReceiptNumber(seqs["receipt_no"])
    {
      var receiptSeq := NextSequence("receipt_no");
      receiptNo := ReceiptNumber(receiptSeq);
    }
  }

  /** `str(receipt_seq).zfill(6)`. */
  function ReceiptNumber(receiptSeq: int): (r: string)
    ensures |r| >= 6
    ensures receiptSeq >= 0 ==> AllDigits(r) && DigitsValue(r) == receiptSeq
  {
    if receiptSeq >= 0 then
      ZFillDigitsValue(DecimalString(receiptSeq), 6);
      DecimalStringValue(receiptSeq);
      ZFill(IntString(receiptSeq), 6)
    else ZFill(IntString(receiptSeq), 6)
  }

  /** Below a million the receipt number is exactly six digits denoting the counter value. */
  lemma ReceiptNumberDigits(n: nat)
    requires n < 1000000
    ensures |ReceiptNumber(n)| == 6 && AllDigits(ReceiptNumber(n))
    ensures DigitsValue(ReceiptNumber(n)) == n
  {
    assert Pow10(6) == 1000000;
    DecimalStringLength(n, 6);
    ZFillDigitsValue(DecimalString(n), 6);
    DecimalStringValue(n);
  }

  /** Distinct non-negative counter values never share a receipt number. */
  lemma ReceiptNumberInjective(a: nat, b: nat)
    requires ReceiptNumber(a) == ReceiptNumber(b)
    ensures a == b
  {
    ParsePaddedDecimal(a, 6);
    ParsePaddedDecimal(b, 6);
  }

  /** Receipt numbers drawn one after another from a non-negative counter are pairwise distinct. */
  lemma SequentialReceiptsDistinct(seqs: map<string, int>, n: nat, i: nat, j: nat)
    requires Current(seqs, "receipt_no") >= 0
    requires i < j < n
    ensures |Draws(seqs, "receipt_no", n).1| == n
    ensures ReceiptNumber(Draws(seqs, "receipt_no", n).1[i]) != ReceiptNumber(Draws(seqs, "receipt_no", n).1[j])
  {
    DrawsAreConsecutive(seqs, "receipt_no", n);
  }
}

/** The direct-mapped preview cache shared by the reports compared at one event. */
module PreviewCache {
  import opened Algebra

  const SLOTS := 64

  /** The pool-dependent half of a swap preview: balances after the swap and output before fees. */
  datatype Preview = Preview(xp0: real, xp1: real, gross: real)

  datatype Entry = Entry(dx: real, input: nat, preview: Preview)

  datatype Quote = Quote(out: real, fee: real)

  type Precision = p: real | p > 0.0 witness 1.0

  function Charge(p: Preview, precision: Precision, fee: (real, real) -> real): Quote {
    var tokens := fee(p.xp0, p.xp1) * p.gross / precision;
    Quote(p.gross - tokens, tokens)
  }

  /** The fee is its rate of the gross output, and the rest is the trader's. */
  lemma ChargeAddsUp(p: Preview, precision: Precision, fee: (real, real) -> real)
    ensures
      var q := Charge(p, precision, fee);
      q.out + q.fee == p.gross && q.fee * precision == fee(p.xp0, p.xp1) * p.gross
  {
    DivMul(fee(p.xp0, p.xp1) * p.gross, precision);
  }

  /** The quote computed afresh from the pool's curve. */
  function Uncached(curve: (nat, nat, real) -> Preview, precision: Precision, i: nat, j: nat, dx: real,
      fee: (real, real) -> real): Quote
  {
    Charge(curve(i, j, dx), precision, fee)
  }

  function Slot(hash: bv64, i: nat): (slot: nat)
    requires i < 2
    ensures slot < SLOTS
  {
    var mixed := (hash ^ (if i == 0 then 0 else 31)) & 63;
    assert mixed < 64;
    mixed as nat
  }

  /** Scratch space for one unchanged pool state: `curve` is that state's preview. Fees are never stored, so one
      cache serves every report. */
  class SwapPreviewCache {
    const curve: (nat, nat, real) -> Preview
    const precision: Precision
    const hash: real -> bv64
    const entries: array<Entry>
    var valid: set<nat>  // the bits set in the validity mask

    ghost predicate Valid()
      reads this, entries
    {
      entries.Length == SLOTS &&
      forall s: nat :: s < SLOTS && s in valid ==> Agrees(entries[s])
    }

    /** The key leaves out the output coin: entries are right because it is always the other one. */
    ghost predicate Agrees(e: Entry) {
      e.input < 2 && e.preview == curve(e.input, 1 - e.input, e.dx)
    }

    constructor (curve: (nat, nat, real) -> Preview, precision: Precision, hash: real -> bv64)
      ensures Valid() && fresh(entries) && valid == {}
      ensures this.curve == curve && this.precision == precision && this.hash == hash
    {
      this.curve := curve;
      this.precision := precision;
      this.hash := hash;
      entries := new Entry[SLOTS](_ => Entry(0.0, 0, Preview(0.0, 0.0, 0.0)));
      valid := {};
    }

    /** A quote through the cache is the uncached quote, whatever slots collide and whatever fee is charged. */
    method Get(i: nat, j: nat, dx: real, fee: (real, real) -> real) returns (q: Quote)
      requires Valid() && i < 2 && j == 1 - i
      modifies this`valid, entries
      ensures Valid()
      ensures q == Uncached(curve, precision, i, j, dx, fee)
    {
      hide Slot, Charge;
      var slot := Slot(hash(dx), i);
      var entry := entries[slot];
      if slot !in valid || entry.dx != dx || entry.input != i {
        entry := Entry(dx, i, curve(i, j, dx));
        entries[slot] := entry;
        valid := valid + {slot};
      }
      q := Charge(entry.preview, precision, fee);
    }
  }
}

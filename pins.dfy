/** The GPIO write protocol of the channel matrix, recorded as an abstract
    sequence of (pin, value) writes instead of calls into the GPIO driver.

    Pins 0..7 carry the 8-bit word of one bank to the octal latches, pins
    21..23 carry the bank address to the 3-to-8 decoder and pin 24 is the
    decoder's enable line. */
module Pins {

  const EnablePin: int := 24
  const AddressMsbPin: int := 21
  const AddressMidPin: int := 22
  const AddressLsbPin: int := 23
  const BankWidth: nat := 8

  datatype Write = Write(pin: int, value: int)

  /** One call of the channel setter, as seen on the pins: which bank it
      latched, whether it drove the address lines, and the 8 levels it put
      on the data pins. */
  datatype Frame = Frame(bank: int, addressed: bool, word: seq<int>)

  /** Index of the first channel slot of a bank (slots count from 0). */
  function BankStart(bank: int): int
  {
    8 * bank
  }

  /** The bank of a channel numbered from 1; C's truncating division agrees
      with Dafny's for the non-negative numerators that occur here. */
  function BankOf(channel: int): (b: int)
    requires channel >= 1
    ensures 0 <= b && BankStart(b) <= channel - 1 < BankStart(b) + BankWidth
  {
    (channel - 1) / BankWidth
  }

  /** The three decoder writes exactly as the setter computes them:
      dig0 = bank % 2, dig1 = dig0 % 2, dig2 = dig1 % 2. */
  function AddressWrites(bank: int): seq<Write>
  {
    var dig0 := bank % 2;
    var dig1 := dig0 % 2;
    var dig2 := dig1 % 2;
    [Write(AddressLsbPin, dig0), Write(AddressMidPin, dig1), Write(AddressMsbPin, dig2)]
  }

  /** Pin i := word[i] for every i, in order. */
  function DataWrites(word: seq<int>): (w: seq<Write>)
    ensures |w| == |word|
    ensures forall i :: 0 <= i < |word| ==> w[i] == Write(i, word[i])
  {
    seq(|word|, i requires 0 <= i < |word| => Write(i, word[i]))
  }

  /** Enable off, address lines when the bank changed, the whole word,
      enable on. */
  function FrameWrites(f: Frame): seq<Write>
  {
    [Write(EnablePin, 0)]
    + (if f.addressed then AddressWrites(f.bank) else [])
    + DataWrites(f.word)
    + [Write(EnablePin, 1)]
  }

  lemma FrameLog(log: seq<Write>, f: Frame)
    ensures log + [Write(EnablePin, 0)] + (if f.addressed then AddressWrites(f.bank) else [])
      + DataWrites(f.word) + [Write(EnablePin, 1)] == log + FrameWrites(f)
  {
  }

  /** The pin log produced by a sequence of setter calls. */
  ghost function Flatten(frames: seq<Frame>): seq<Write>
  {
    if |frames| == 0 then []
    else Flatten(frames[..|frames| - 1]) + FrameWrites(frames[|frames| - 1])
  }

  /** The bank the decoder was last driven to (by an address write), given
      the value the setter's remembered bank starts from. */
  ghost function LastBank(frames: seq<Frame>, initial: int): int
  {
    if |frames| == 0 then initial else frames[|frames| - 1].bank
  }

  /** Every recorded call latched a real bank and its whole word, and drove
      the address lines exactly when its bank differed from the bank of the
      preceding call (or from the initial remembered bank). */
  ghost predicate AddressedOnChange(frames: seq<Frame>, initial: int)
  {
    |frames| == 0 ||
    var prior := frames[..|frames| - 1];
    var f := frames[|frames| - 1];
    && AddressedOnChange(prior, initial)
    && f.bank >= 0 && |f.word| == BankWidth
    && f.addressed == (f.bank != LastBank(prior, initial))
  }

  lemma FlattenAppend(frames: seq<Frame>, f: Frame)
    ensures Flatten(frames + [f]) == Flatten(frames) + FrameWrites(f)
  {
    assert (frames + [f])[..|frames|] == frames;
  }

  lemma AddressedAppend(frames: seq<Frame>, initial: int, f: Frame)
    requires AddressedOnChange(frames, initial)
    requires f.bank >= 0 && |f.word| == BankWidth
    requires f.addressed == (f.bank != LastBank(frames, initial))
    ensures AddressedOnChange(frames + [f], initial)
    ensures LastBank(frames + [f], initial) == f.bank
  {
    assert (frames + [f])[..|frames|] == frames;
  }

  /** The log is exactly the writes of the recorded setter calls, each call
      drove the address lines exactly when its bank changed, and the
      remembered bank is the bank of the last call. */
  ghost predicate LogExplained(log: seq<Write>, frames: seq<Frame>, initial: int, lastset: int)
  {
    && log == Flatten(frames)
    && AddressedOnChange(frames, initial)
    && lastset == LastBank(frames, initial)
  }

  /** Appending one setter call's writes to a log explained by `frames`
      gives the log explained by `frames + [f]`. */
  lemma FrameAppended(frames: seq<Frame>, initial: int, f: Frame, log0: seq<Write>, log: seq<Write>)
    requires LogExplained(log0, frames, initial, LastBank(frames, initial))
    requires f.bank >= 0 && |f.word| == BankWidth && f.addressed == (f.bank != LastBank(frames, initial))
    requires log == log0 + [Write(EnablePin, 0)] + (if f.addressed then AddressWrites(f.bank) else [])
                    + DataWrites(f.word) + [Write(EnablePin, 1)]
    ensures LogExplained(log, frames + [f], initial, f.bank)
  {
    FrameLog(log0, f);
    FlattenAppend(frames, f);
    AddressedAppend(frames, initial, f);
  }

  /** Every call in the record drove the address lines exactly when its bank
      differed from the one before it. */
  lemma {:induction false} AddressedAt(frames: seq<Frame>, initial: int, k: int)
    requires AddressedOnChange(frames, initial) && 0 <= k < |frames|
    ensures frames[k].addressed == (frames[k].bank != LastBank(frames[..k], initial))
  {
    var prior := frames[..|frames| - 1];
    if k < |frames| - 1 {
      AddressedAt(prior, initial, k);
      assert prior[..k] == frames[..k];
    } else {
      assert prior == frames[..k];
    }
  }

  /** The decoder output selected by the three address values written for
      a bank: pin 21 is the most significant bit. */
  function SelectedLatch(bank: int): (latch: int)
    requires bank >= 0
    ensures latch == if bank % 2 == 0 then 0 else 7
  {
    var w := AddressWrites(bank);
    4 * w[2].value + 2 * w[1].value + w[0].value
  }

  /** As written, the decoder bits are all bank % 2, so banks 0, 2, 4, 6
      share one address and banks 1, 3, 5, 7 all select latch 7: only banks
      0 and 7 are addressed correctly. */
  lemma DecoderBitsCollapse(b1: int, b2: int)
    requires 0 <= b1 && 0 <= b2 && b1 % 2 == b2 % 2
    ensures AddressWrites(b1) == AddressWrites(b2)
    ensures SelectedLatch(1) == 7 && SelectedLatch(2) == 0
  {
  }

  /** A frame always starts by disabling the decoder and ends by enabling
      it, and carries the whole 8-bit word of its bank in between. */
  lemma FrameShape(f: Frame)
    requires f.bank >= 0 && |f.word| == BankWidth
    ensures var w := FrameWrites(f);
      && |w| == (if f.addressed then 3 else 0) + BankWidth + 2
      && w[0] == Write(EnablePin, 0)
      && w[|w| - 1] == Write(EnablePin, 1)
      && w[|w| - 1 - BankWidth .. |w| - 1] == DataWrites(f.word)
  {
  }
}

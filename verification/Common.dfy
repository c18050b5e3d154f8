/** Bytes, byte strings and the small result types shared by all modules.

    What several threads do is modelled by labelled steps, in the same shape everywhere
    (TreeManager, Brokers, SendQueues, ThreadPools): a `State`, a `Label` for each critical
    section, `Enabled` and `Step` for a single one, and from these `CanRun` and `Run` for a list
    of labels, which is a run with one interleaving. Only `State`, `Label`, `Enabled` and `Step`
    differ; `CanRun` and `Run` are the same recursion on the list each time, and so are the
    lemmas that carry an invariant of `Step` over to `Run`. */
module Common {
  type Byte = b: int | 0 <= b < 256

  /** A `std::string` or `std::vector<uint8_t>`: both are sequences of bytes. */
  type Str = seq<Byte>

  /** `byte << 8`. */
  function Msb(b: Byte): (v: int)
    ensures 0 <= v <= 0xFF00
  {
    (b as int) * 256
  }

  datatype Option<+T> = None | Some(value: T)

  /** The three-valued answer of every parser. */
  datatype Tribool = Indeterminate | True | False
}

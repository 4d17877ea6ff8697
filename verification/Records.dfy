/** Log records and the bounded copies of their texts. */
module Records {
  import opened Basics

  const MAX_MESSAGE_BYTES := 512
  const MAX_ATTRIBUTES := 8
  const MAX_ATTR_TEXT_BYTES := 256
  const CONTEXT_TEXT_BYTES := 2 * MAX_ATTR_TEXT_BYTES

  const WIDE := 0x1_0000_0000

  /** The 32-bit loss counters. */
  type u32 = x: nat | x < WIDE

  type u64 = x: nat | x < 0x1_0000_0000_0000_0000

  type i64 = x: int | -0x8000_0000_0000_0000 <= x < 0x8000_0000_0000_0000

  function Add32(counter: u32, n: nat): u32 { (counter + n) % WIDE }

  datatype LogLevel = Trace | Debug | Info | Warn | Error | Fatal | Off

  datatype AttributeKind = Default | Tag | Context | Extra

  /** Doubles are carried by their bits. */
  datatype Value = Signed(i: i64) | Unsigned(n: u64) | Double(bits: u64) | Boolean(b: bool) | Text(t: string)

  datatype Attribute = Attribute(key: string, value: Value, kind: AttributeKind)

  datatype Source = Source(file: string, line: u32)

  datatype Record = Record(
    timestamp: u64, level: LogLevel, logger: string, message: string, source: Source, thread: u64,
    attributes: seq<Attribute>, truncatedAttributes: u32, truncatedBytes: u32)

  // ----- Bounded texts

  /** As much of a text as fits. */
  function Prefix<T>(s: seq<T>, room: nat): seq<T> { s[..Min(|s|, room)] }

  /** How much of a text does not fit. */
  function Excess<T>(s: seq<T>, room: nat): nat { |s| - Min(|s|, room) }

  /** A kept attribute is the offered one with its texts cut short, if at all. */
  ghost predicate IsCutOf(kept: Attribute, offered: Attribute) {
    && kept.kind == offered.kind && kept.key <= offered.key
    && (kept.value == offered.value
        || (kept.value.Text? && offered.value.Text? && kept.value.t <= offered.value.t))
  }

  lemma Add32Twice(counter: u32, a: nat, b: nat)
    ensures Add32(Add32(counter, a), b) == Add32(counter, a + b)
    ensures Add32(counter, a % WIDE) == Add32(counter, a)
  {
  }
}

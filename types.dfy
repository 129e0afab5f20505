/** The records exchanged by the vote-aggregation pipeline.
    Unsigned 64-bit fields are modelled as `nat`; where the source's u64
    arithmetic could leave that range the operations say so explicitly. */
module Types {

  /** 2^64: one past the largest u64 value. */
  const U64_LIMIT: nat := 0x1_0000_0000_0000_0000

  /** A poll: its identifier, its ordered choice labels and its difficulty class. */
  datatype Theme = Theme(themeId: nat, choices: seq<string>, drClass: nat)

  /** One vote for choice `answer` (0-based) of theme `themeId`, valid from
      `createdAt` (ms) until `expiredAt` (ms); `expiredAt == 0` means it never expires. */
  datatype Vote = Vote(themeId: nat, answer: nat, createdAt: nat, expiredAt: nat)

  /** The decoded batch: every theme and one flat list of votes shared by all of them. */
  datatype Request = Request(themes: seq<Theme>, votes: seq<Vote>)

  /** One percentage entry: a number, or the NaN that `0.0 / 0.0` yields. */
  datatype Entry = Finite(value: real) | NaN

  /** One snapshot of the percentage distribution at `timestamp`. */
  datatype Transition = Transition(timestamp: nat, percentage: seq<Entry>)

  /** The result for one theme. */
  datatype Response = Response(
    themeId: nat,
    percentage: seq<Entry>,
    shortTransition: seq<Transition>,
    longTransition: seq<Transition>)
}

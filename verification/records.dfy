/** The values that travel through the ledger: event payloads and blocks. A C++ std::string is a
    sequence of bytes; here it is a string whose characters stand for those bytes. */
module Records {

  const U64: nat := 0x1_0000_0000_0000_0000

  /** std::uint64_t. */
  type u64 = n: nat | n < U64

  /** Arithmetic on std::uint64_t wraps. */
  function Wrap(n: nat): (r: u64)
    ensures n < U64 ==> r == n
  {
    n % U64
  }

  /** An arbitrary JSON value. A number is kept as the text it is printed with, so integers and
      floating-point values are covered alike. */
  datatype Json =
    | Null
    | Bool(b: bool)
    | Num(lexeme: string)
    | Str(s: string)
    | Arr(items: seq<Json>)
    | Obj(members: seq<Member>)

  datatype Member = Member(key: string, value: Json)

  datatype Event = Event(
    eventType: string,
    locationId: string,
    actor: string,
    description: string,
    metadata: Json)

  datatype Block = Block(
    index: u64,
    timestamp: string,
    event: Event,
    prevHash: string,
    hash: string)

  datatype Option<+T> = None | Some(value: T)

  function Last<T>(s: seq<T>): T
    requires s != []
  {
    s[|s| - 1]
  }
}

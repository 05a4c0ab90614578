/** Storage, and what a call can see and do: shared by the source language, the intermediate
    representation and the machine. */
module Worlds {
  import opened Words

  /** One word of storage: a scalar is its own element 0. */
  datatype Cell = Cell(name: string, index: int)

  type Store = map<Cell, Word>

  function Get(s: Store, c: Cell): Word {
    if c in s then s[c] else 0
  }

  datatype Argument = Number(value: Word) | Address(text: string)

  datatype Event = Event(callee: string, arguments: seq<Argument>)

  /** What outlives a method: the globals, and the calls made to the outside so far. */
  datatype World = World(globals: Store, trace: seq<Event>)

  /** `Trapped` is a divide error. `Strayed` is a structured program reading outside an array: nothing
      checks reads, so nothing is promised about such a run. */
  datatype Outcome =
    | Returned(value: Word, world: World)
    | Exited(code: Word, world: World)
    | Trapped
    | Strayed
    | Diverged

  /** Outcomes of which nothing is promised. */
  predicate Undefined(o: Outcome) {
    o.Trapped? || o.Strayed?
  }

  /** How a call behaves: it may change the world, never the caller's locals. */
  type Oracle = (string, seq<Argument>, World) -> Outcome
}

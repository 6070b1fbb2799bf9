/** A single Life cell: a value holding one of exactly two statuses.
    The status symbols `:alive` and `:dead` are modelled as a `bool`. */
module Cells {

  datatype Cell = Cell(alive: bool) {

    /** The `alive?` query. */
    predicate IsAlive() {
      alive
    }
  }

  /** `Cell.new` with an optional status; built without one, the model makes
      the cell dead. */
  function New(alive: bool := false): (c: Cell)
    ensures c.IsAlive() <==> alive
  {
    Cell(alive)
  }

  /** `live!`: whatever the previous status, the cell is alive afterwards. */
  function Live(c: Cell): (r: Cell)
    ensures r.IsAlive()
  {
    Cell(true)
  }

  /** `die!`: whatever the previous status, the cell is dead afterwards. */
  function Die(c: Cell): (r: Cell)
    ensures !r.IsAlive()
  {
    Cell(false)
  }

  /** A cell built without a status is dead; built with `:dead` it is dead too. */
  lemma DefaultIsDead()
    ensures !New().IsAlive()
    ensures New() == New(false)
  {
  }

  /** `die!` right after `live!` wins, and `live!` right after `die!` wins:
      the most recent operation alone decides the status. */
  lemma LastOperationWins(c: Cell)
    ensures !Die(Live(c)).IsAlive()
    ensures Live(Die(c)).IsAlive()
    ensures Live(Live(c)) == Live(c) && Die(Die(c)) == Die(c)
  {
  }

  /** A cell is the same value as a freshly built cell with its status:
      status is the cell's only state. */
  lemma CellIsItsStatus(c: Cell)
    ensures New(c.IsAlive()) == c
  {
  }
}

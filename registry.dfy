/** The fixed hall of 30 workstations the store starts with (`getInitialPCs`):
    three price tiers of ten, laid out in six rows of five. */
module Registry {
  import opened Wrappers
  import opened Model
  import opened Format

  const HallSize: int := 30
  const RowLength: int := 5

  /** `PC-01` .. `PC-30`. */
  function PCName(id: int): string
    requires 0 <= id < 100
  {
    "PC-" + Pad2(id)
  }

  function TierSpecs(i: int): Specs
  {
    Specs(
      if i < 10 then "Intel i9-13900K" else if i < 20 then "Intel i7-13700K" else "Intel i5-13600K",
      if i < 10 then "RTX 4090" else if i < 20 then "RTX 4070" else "RTX 4060",
      if i < 10 then "64GB DDR5" else if i < 20 then "32GB DDR5" else "16GB DDR5",
      if i < 10 then "240Hz 4K" else "144Hz 2K")
  }

  /** The workstation at index `i` of the initial hall. */
  function InitialPC(i: int): PC
    requires 0 <= i < HallSize
  {
    PC(
      i + 1,
      PCName(i + 1),
      if i < 5 then Occupied else if i < 10 then Booked else Available,
      TierSpecs(i),
      if i < 10 then 300 else if i < 20 then 200 else 150,
      i / RowLength + 1,
      i % RowLength + 1,
      None)
  }

  function InitialPCs(): (pcs: seq<PC>)
    ensures |pcs| == HallSize
  {
    seq(HallSize, i requires 0 <= i < HallSize => InitialPC(i))
  }

  /** Ids are 1..30 in order; the hourly price is 300, 200 and 150 by tier. */
  lemma InitialPCsIdsAndPrices()
    ensures forall i :: 0 <= i < HallSize ==> InitialPCs()[i].id == i + 1
    ensures forall i :: 0 <= i < HallSize ==>
              InitialPCs()[i].pricePerHour == (if i < 10 then 300 else if i < 20 then 200 else 150)
    ensures forall i :: 0 <= i < HallSize ==> InitialPCs()[i].lastUsed.None?
  {
  }

  /** The index of the workstation standing at (`row`, `col`). */
  function GridIndex(row: int, col: int): int
  {
    (row - 1) * RowLength + col - 1
  }

  /** Positions are pairwise distinct and cover the 6 x 5 grid exactly. */
  lemma InitialPCsFillGrid()
    ensures forall i :: 0 <= i < HallSize ==>
              1 <= InitialPCs()[i].row <= 6 && 1 <= InitialPCs()[i].col <= RowLength
    ensures forall i, j :: 0 <= i < j < HallSize ==>
              InitialPCs()[i].row != InitialPCs()[j].row || InitialPCs()[i].col != InitialPCs()[j].col
    ensures forall row, col :: 1 <= row <= 6 && 1 <= col <= RowLength ==>
              && 0 <= GridIndex(row, col) < HallSize
              && InitialPCs()[GridIndex(row, col)].row == row
              && InitialPCs()[GridIndex(row, col)].col == col
  {
    var pcs := InitialPCs();
    forall i, j | 0 <= i < j < HallSize
      ensures pcs[i].row != pcs[j].row || pcs[i].col != pcs[j].col
    {
      assert i == (pcs[i].row - 1) * RowLength + pcs[i].col - 1;
      assert j == (pcs[j].row - 1) * RowLength + pcs[j].col - 1;
    }
  }
}

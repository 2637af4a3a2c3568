/** The constant tables `asBCTypeSize` and `asBCInfo`. */
module Tables {
  // The number of 32-bit words in a pointer. Left unspecified: every result holds for both.
  type PtrSize = n: int | n == 1 || n == 2 witness 1
  const PTR_SIZE: PtrSize

  datatype BCType =
    | INFO | NO_ARG | W_ARG | wW_ARG | DW_ARG | rW_DW_ARG | QW_ARG | DW_DW_ARG
    | wW_rW_rW_ARG | wW_QW_ARG | wW_rW_ARG | rW_ARG | wW_DW_ARG | wW_rW_DW_ARG
    | rW_rW_ARG | wW_W_ARG | QW_DW_ARG | rW_QW_ARG | W_DW_ARG | rW_W_DW_ARG | rW_DW_DW_ARG

  const PTR_ARG := if PTR_SIZE == 1 then DW_ARG else QW_ARG
  const PTR_DW_ARG := if PTR_SIZE == 1 then DW_DW_ARG else QW_DW_ARG
  const wW_PTR_ARG := if PTR_SIZE == 1 then wW_DW_ARG else wW_QW_ARG
  const rW_PTR_ARG := if PTR_SIZE == 1 then rW_DW_ARG else rW_QW_ARG

  function TypeSize(t: BCType): nat {
    match t
    case INFO => 0
    case NO_ARG | W_ARG | wW_ARG | rW_ARG => 1
    case DW_ARG | rW_DW_ARG | wW_rW_rW_ARG | wW_rW_ARG | wW_DW_ARG | rW_rW_ARG | wW_W_ARG | W_DW_ARG => 2
    case QW_ARG | DW_DW_ARG | wW_QW_ARG | wW_rW_DW_ARG | rW_QW_ARG | rW_W_DW_ARG | rW_DW_DW_ARG => 3
    case QW_DW_ARG => 4
  }

  function InfoType(op: int): BCType {
    if op in {0, 5, 49, 58, 59, 63, 70, 73, 137, 157, 158, 174} || 18 <= op <= 23 || 27 <= op <= 36 then NO_ARG
    else if op in {1, 7, 69, 75, 96, 98, 175, 177} then PTR_ARG
    else if op in {2, 9, 61, 62, 76, 139, 144, 187, 188, 200, 250} || 11 <= op <= 17 then DW_ARG
    else if op in {3, 4, 6, 48, 57, 66, 82, 83, 97, 138, 140, 141, 149, 151, 159, 176, 179} || 24 <= op <= 26
            || 37 <= op <= 39 || 88 <= op <= 91 || 100 <= op <= 108 || 154 <= op <= 156 then rW_ARG
    else if op in {8, 65, 87, 186} then wW_PTR_ARG
    else if op in {10, 60, 68, 71, 72, 173, 251} then W_ARG
    else if 40 <= op <= 45 || 115 <= op <= 129 || 160 <= op <= 170 || 180 <= op <= 183
            || 193 <= op <= 199 then wW_rW_rW_ARG
    else if op in {46, 79, 178} then W_DW_ARG
    else if op == 47 then QW_ARG
    else if op in {99, 171, 172} || 50 <= op <= 53 then rW_rW_ARG
    else if op in {54, 55, 56, 191, 253} then rW_DW_ARG
    else if op in {64, 136} then PTR_DW_ARG
    else if op in {67, 74, 85, 86} || 92 <= op <= 95 then wW_ARG
    else if op in {77, 142, 143, 189} then wW_DW_ARG
    else if op == 78 then wW_QW_ARG
    else if op in {80, 81, 150, 152, 153} || 109 <= op <= 114 || 145 <= op <= 148 then wW_rW_ARG
    else if op == 84 then rW_PTR_ARG
    else if 130 <= op <= 135 then wW_rW_DW_ARG
    else if op in {184, 185} then rW_W_DW_ARG
    else if op in {190, 192} then rW_DW_DW_ARG
    else INFO
  }

  // The instructions that have no stack effect in the table: it is given when they are emitted.
  predicate VariableStackInc(op: int) {
    op in {9, 10, 61, 62, 64, 139, 176}
  }

  function InfoStackInc(op: int): int {
    if op in {0, 46, 58, 69, 144} then -(PTR_SIZE as int)
    else if op in {1, 4, 48, 59, 73, 75, 98, 100, 177, 191} then PTR_SIZE
    else if op in {2, 3, 7, 76} then 1
    else if op in {47, 179} then 2
    else if op == 60 then 1 + PTR_SIZE
    else if op == 200 then -(PTR_SIZE as int) - 1
    else 0
  }
}

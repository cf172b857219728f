/**
 * The instruction set: one variant per opcode, with its byte value, and
 * the decoding of a program byte into an opcode.
 */
module Opcodes {
  import opened Words

  datatype Opcode =
      STOP
    | ADD
    | MUL
    | SUB
    | DIV
    | SDIV
    | MOD
    | SMOD
    | ADDMOD
    | MULMOD
    | EXP
    | SIGNEXTEND
    | LT
    | GT
    | SLT
    | SGT
    | EQ
    | ISZERO
    | AND
    | OR
    | XOR
    | NOT
    | BYTE
    | SHL
    | SHR
    | SAR
    | KECCAK256
    | ADDRESS
    | BALANCE
    | ORIGIN
    | CALLER
    | CALLVALUE
    | CALLDATALOAD
    | CALLDATASIZE
    | CALLDATACOPY
    | CODESIZE
    | CODECOPY
    | GASPRICE
    | EXTCODESIZE
    | EXTCODECOPY
    | RETURNDATASIZE
    | RETURNDATACOPY
    | EXTCODEHASH
    | BLOCKHASH
    | COINBASE
    | TIMESTAMP
    | NUMBER
    | DIFFICULTY
    | GASLIMIT
    | CHAINID
    | SELFBALANCE
    | BASEFEE
    | POP
    | MLOAD
    | MSTORE
    | MSTORE8
    | SLOAD
    | SSTORE
    | JUMP
    | JUMPI
    | PC
    | JUMPDEST
    | TLOAD
    | TSTORE
    | PUSH1
    | PUSH2
    | PUSH3
    | PUSH4
    | PUSH5
    | PUSH6
    | PUSH7
    | PUSH8
    | PUSH9
    | PUSH10
    | PUSH11
    | PUSH12
    | PUSH13
    | PUSH14
    | PUSH15
    | PUSH16
    | PUSH17
    | PUSH18
    | PUSH19
    | PUSH20
    | PUSH21
    | PUSH22
    | PUSH23
    | PUSH24
    | PUSH25
    | PUSH26
    | PUSH27
    | PUSH28
    | PUSH29
    | PUSH30
    | PUSH31
    | PUSH32
    | DUP1
    | DUP2
    | DUP3
    | DUP4
    | DUP5
    | DUP6
    | DUP7
    | DUP8
    | DUP9
    | DUP10
    | DUP11
    | DUP12
    | DUP13
    | DUP14
    | DUP15
    | DUP16
    | SWAP1
    | SWAP2
    | SWAP3
    | SWAP4
    | SWAP5
    | SWAP6
    | SWAP7
    | SWAP8
    | SWAP9
    | SWAP10
    | SWAP11
    | SWAP12
    | SWAP13
    | SWAP14
    | SWAP15
    | SWAP16
    | LOG0
    | LOG1
    | LOG2
    | LOG3
    | LOG4
    | CREATE
    | CALL
    | CALLCODE
    | RETURN
    | DELEGATECALL
    | CREATE2
    | STATICCALL
    | REVERT
    | INVALID
    | SELFDESTRUCT

  /** The byte value of each opcode (the enum's discriminant). */
  function Discriminant(op: Opcode): Byte
  {
    match op
    case STOP => 0x00
    case ADD => 0x01
    case MUL => 0x02
    case SUB => 0x03
    case DIV => 0x04
    case SDIV => 0x05
    case MOD => 0x06
    case SMOD => 0x07
    case ADDMOD => 0x08
    case MULMOD => 0x09
    case EXP => 0x0A
    case SIGNEXTEND => 0x0B
    case LT => 0x10
    case GT => 0x11
    case SLT => 0x12
    case SGT => 0x13
    case EQ => 0x14
    case ISZERO => 0x15
    case AND => 0x16
    case OR => 0x17
    case XOR => 0x18
    case NOT => 0x19
    case BYTE => 0x1A
    case SHL => 0x1B
    case SHR => 0x1C
    case SAR => 0x1D
    case KECCAK256 => 0x20
    case ADDRESS => 0x30
    case BALANCE => 0x31
    case ORIGIN => 0x32
    case CALLER => 0x33
    case CALLVALUE => 0x34
    case CALLDATALOAD => 0x35
    case CALLDATASIZE => 0x36
    case CALLDATACOPY => 0x37
    case CODESIZE => 0x38
    case CODECOPY => 0x39
    case GASPRICE => 0x3A
    case EXTCODESIZE => 0x3B
    case EXTCODECOPY => 0x3C
    case RETURNDATASIZE => 0x3D
    case RETURNDATACOPY => 0x3E
    case EXTCODEHASH => 0x3F
    case BLOCKHASH => 0x40
    case COINBASE => 0x41
    case TIMESTAMP => 0x42
    case NUMBER => 0x43
    case DIFFICULTY => 0x44
    case GASLIMIT => 0x45
    case CHAINID => 0x46
    case SELFBALANCE => 0x47
    case BASEFEE => 0x48
    case POP => 0x50
    case MLOAD => 0x51
    case MSTORE => 0x52
    case MSTORE8 => 0x53
    case SLOAD => 0x54
    case SSTORE => 0x55
    case JUMP => 0x56
    case JUMPI => 0x57
    case PC => 0x58
    case JUMPDEST => 0x5B
    case TLOAD => 0x5C
    case TSTORE => 0x5D
    case PUSH1 => 0x60
    case PUSH2 => 0x61
    case PUSH3 => 0x62
    case PUSH4 => 0x63
    case PUSH5 => 0x64
    case PUSH6 => 0x65
    case PUSH7 => 0x66
    case PUSH8 => 0x67
    case PUSH9 => 0x68
    case PUSH10 => 0x69
    case PUSH11 => 0x6A
    case PUSH12 => 0x6B
    case PUSH13 => 0x6C
    case PUSH14 => 0x6D
    case PUSH15 => 0x6E
    case PUSH16 => 0x6F
    case PUSH17 => 0x70
    case PUSH18 => 0x71
    case PUSH19 => 0x72
    case PUSH20 => 0x73
    case PUSH21 => 0x74
    case PUSH22 => 0x75
    case PUSH23 => 0x76
    case PUSH24 => 0x77
    case PUSH25 => 0x78
    case PUSH26 => 0x79
    case PUSH27 => 0x7A
    case PUSH28 => 0x7B
    case PUSH29 => 0x7C
    case PUSH30 => 0x7D
    case PUSH31 => 0x7E
    case PUSH32 => 0x7F
    case DUP1 => 0x80
    case DUP2 => 0x81
    case DUP3 => 0x82
    case DUP4 => 0x83
    case DUP5 => 0x84
    case DUP6 => 0x85
    case DUP7 => 0x86
    case DUP8 => 0x87
    case DUP9 => 0x88
    case DUP10 => 0x89
    case DUP11 => 0x8A
    case DUP12 => 0x8B
    case DUP13 => 0x8C
    case DUP14 => 0x8D
    case DUP15 => 0x8E
    case DUP16 => 0x8F
    case SWAP1 => 0x90
    case SWAP2 => 0x91
    case SWAP3 => 0x92
    case SWAP4 => 0x93
    case SWAP5 => 0x94
    case SWAP6 => 0x95
    case SWAP7 => 0x96
    case SWAP8 => 0x97
    case SWAP9 => 0x98
    case SWAP10 => 0x99
    case SWAP11 => 0x9A
    case SWAP12 => 0x9B
    case SWAP13 => 0x9C
    case SWAP14 => 0x9D
    case SWAP15 => 0x9E
    case SWAP16 => 0x9F
    case LOG0 => 0xA0
    case LOG1 => 0xA1
    case LOG2 => 0xA2
    case LOG3 => 0xA3
    case LOG4 => 0xA4
    case CREATE => 0xF0
    case CALL => 0xF1
    case CALLCODE => 0xF2
    case RETURN => 0xF3
    case DELEGATECALL => 0xF4
    case CREATE2 => 0xF5
    case STATICCALL => 0xFA
    case REVERT => 0xFD
    case INVALID => 0xFE
    case SELFDESTRUCT => 0xFF
  }

  /** The bytes `from_u8` gives a specific opcode for. */
  predicate Decoded(b: Byte)
  {
    b <= 0x0B || 0x10 <= b <= 0x15 || b == 0x51 || b == 0x52 || b == 0x60
  }

  /**
   * `from_u8`: a table of the bytes it knows; every other byte becomes
   * INVALID.
   */
  function FromU8(b: Byte): (op: Opcode)
    ensures op != INVALID <==> Decoded(b)
  {
    match b
    case 0x00 => STOP
    case 0x01 => ADD
    case 0x02 => MUL
    case 0x03 => SUB
    case 0x04 => DIV
    case 0x05 => SDIV
    case 0x06 => MOD
    case 0x07 => SMOD
    case 0x08 => ADDMOD
    case 0x09 => MULMOD
    case 0x0A => EXP
    case 0x0B => SIGNEXTEND
    case 0x10 => LT
    case 0x11 => GT
    case 0x12 => SLT
    case 0x13 => SGT
    case 0x14 => EQ
    case 0x15 => ISZERO
    case 0x51 => MSTORE
    case 0x52 => MLOAD
    case 0x60 => PUSH1
    case _ => INVALID
  }
  /**
   * Every byte the table knows, except 0x51 and 0x52, decodes to the
   * opcode whose byte value it is.
   */
  lemma FromU8MatchesDiscriminant(b: Byte)
    requires Decoded(b) && b != 0x51 && b != 0x52
    ensures Discriminant(FromU8(b)) == b
  {
    if b <= 0x05 {
      assert b in {0x00, 0x01, 0x02, 0x03, 0x04, 0x05};
    } else if b <= 0x0B {
      assert b in {0x06, 0x07, 0x08, 0x09, 0x0A, 0x0B};
    } else if b <= 0x15 {
      assert b in {0x10, 0x11, 0x12, 0x13, 0x14, 0x15};
    }
  }

  /** The table swaps the two memory opcodes: MLOAD's byte gives MSTORE and back. */
  lemma FromU8SwapsMemoryOpcodes()
    ensures FromU8(Discriminant(MLOAD)) == MSTORE
    ensures FromU8(Discriminant(MSTORE)) == MLOAD
  {
    assert Discriminant(MLOAD) == 0x51;
    assert Discriminant(MSTORE) == 0x52;
  }

  /**
   * Defined opcodes outside the table, such as JUMPDEST and PUSH2, decode
   * to INVALID.
   */
  lemma FromU8DropsDefinedOpcodes()
    ensures Discriminant(JUMPDEST) == 0x5B && FromU8(0x5B) == INVALID
    ensures Discriminant(PUSH2) == 0x61 && FromU8(0x61) == INVALID
  {
  }

  /** INVALID's own byte decodes to INVALID. */
  lemma FromU8OfInvalid()
    ensures FromU8(0xFE) == INVALID
  {
  }

  /** The same table with MLOAD at 0x51 and MSTORE at 0x52, as the enum has them. */
  function FromU8Corrected(b: Byte): (op: Opcode)
    ensures op != INVALID <==> Decoded(b)
  {
    match b
    case 0x00 => STOP
    case 0x01 => ADD
    case 0x02 => MUL
    case 0x03 => SUB
    case 0x04 => DIV
    case 0x05 => SDIV
    case 0x06 => MOD
    case 0x07 => SMOD
    case 0x08 => ADDMOD
    case 0x09 => MULMOD
    case 0x0A => EXP
    case 0x0B => SIGNEXTEND
    case 0x10 => LT
    case 0x11 => GT
    case 0x12 => SLT
    case 0x13 => SGT
    case 0x14 => EQ
    case 0x15 => ISZERO
    case 0x51 => MLOAD
    case 0x52 => MSTORE
    case 0x60 => PUSH1
    case _ => INVALID
  }

  /**
   * The corrected table decodes each byte it knows to the opcode of that
   * byte value, and differs from `from_u8` only at 0x51 and 0x52.
   */
  lemma FromU8CorrectedRoundTrip(b: Byte)
    ensures Decoded(b) ==> Discriminant(FromU8Corrected(b)) == b
    ensures b != 0x51 && b != 0x52 ==> FromU8Corrected(b) == FromU8(b)
  {
  }
}

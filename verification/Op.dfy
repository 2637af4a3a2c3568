/** The instruction numbers of the virtual machine, as declared by `asEBCInstr`.
    Numbers from `TryBlock` up are assembler directives that never reach the final program. */
module Op {
  const PopPtr := 0
  const PshGPtr := 1
  const PshC4 := 2
  const PshV4 := 3
  const PSF := 4
  const SwapPtr := 5
  const PshG4 := 7
  const LdGRdR4 := 8
  const CALL := 9
  const RET := 10
  const JMP := 11
  const JZ := 12
  const JNZ := 13
  const JS := 14
  const JNS := 15
  const JP := 16
  const JNP := 17
  const TZ := 18
  const TNZ := 19
  const TS := 20
  const TNS := 21
  const TP := 22
  const TNP := 23
  const INCi16 := 27
  const INCi8 := 28
  const DECi16 := 29
  const DECi8 := 30
  const INCi := 31
  const DECi := 32
  const INCf := 33
  const DECf := 34
  const INCd := 35
  const DECd := 36
  const IncVi := 37
  const DecVi := 38
  const PshC8 := 47
  const PshVPtr := 48
  const RDSPtr := 49
  const CMPd := 50
  const CMPu := 51
  const CMPf := 52
  const CMPi := 53
  const CMPIi := 54
  const CMPIf := 55
  const CMPIu := 56
  const JMPP := 57
  const PopRPtr := 58
  const PshRPtr := 59
  const CALLSYS := 61
  const CALLBND := 62
  const SUSPEND := 63
  const ALLOC := 64
  const FREE := 65
  const LOADOBJ := 66
  const STOREOBJ := 67
  const REFCPY := 69
  const CHKREF := 70
  const GETOBJREF := 71
  const GETREF := 72
  const PshNull := 73
  const ClrVPtr := 74
  const SetV4 := 77
  const SetV8 := 78
  const ADDSi := 79
  const CpyVtoV4 := 80
  const CpyVtoR4 := 82
  const CpyVtoR8 := 83
  const CpyVtoG4 := 84
  const CpyRtoV4 := 85
  const CpyRtoV8 := 86
  const CpyGtoV4 := 87
  const WRTV1 := 88
  const WRTV2 := 89
  const WRTV4 := 90
  const WRTV8 := 91
  const RDR1 := 92
  const RDR2 := 93
  const RDR4 := 94
  const RDR8 := 95
  const LDG := 96
  const LDV := 97
  const PGA := 98
  const CmpPtr := 99
  const VAR := 100
  const ADDi := 115
  const SUBi := 116
  const MULi := 117
  const ADDf := 120
  const SUBf := 121
  const MULf := 122
  const ADDIi := 130
  const SUBIi := 131
  const MULIi := 132
  const ADDIf := 133
  const SUBIf := 134
  const MULIf := 135
  const SetG4 := 136
  const ChkRefS := 137
  const ChkNullV := 138
  const CALLINTF := 139
  const INCi64 := 157
  const DECi64 := 158
  const CMPi64 := 171
  const CMPu64 := 172
  const ClrHi := 174
  const JitEntry := 175
  const CallPtr := 176
  const LoadThisR := 178
  const PshV8 := 179
  const LoadRObjR := 184
  const LoadVObjR := 185
  const RefCpyV := 186
  const JLowZ := 187
  const JLowNZ := 188
  const AllocMem := 189
  const Thiscall1 := 200
  const MAXBYTECODE := 201
  const TryBlock := 250
  const VarDecl := 251
  const Block := 252
  const ObjInfo := 253
  const LINE := 254
  const LABEL := 255
}

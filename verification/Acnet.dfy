/** The ACNET header and the constants of the protocol (server.h, global.cpp). */
module Acnet {

  /** An AcnetHeader, field by field, in the order of the wire. `status` is an int16_t. */
  datatype Header = Header(flags: nat, status: int, server: nat, client: nat,
                           task: nat, taskId: nat, msgId: nat, msgLen: nat)

  const FLG_MLT := 0x1
  const FLG_REQ := 0x2
  const FLG_RPY := 0x4
  const FLG_CAN := 0x200

  const HEADER_SIZE := 18
  const PACKET_SIZE := 65534 - 20 - 8
  const USER_PACKET_SIZE := PACKET_SIZE - HEADER_SIZE

  const REQUEST_TIMEOUT := 390
  const REPLY_DELAY := 5
  const MIN_TIMEOUT_MS := 400

  /** status_t(f, e) */
  function Status(facility: int, error: int): int { facility + error * 256 }

  const SUCCESS := Status(0, 0)
  const PEND := Status(1, 1)
  const ENDMULT := Status(1, 2)
  const NLM := Status(1, -2)
  const NOREMMEM := Status(1, -3)
  const TMO := Status(1, -6)
  const BUSY := Status(1, -8)
  const NAME_IN_USE := Status(1, -27)
  const NCR := Status(1, -28)
  const NOTASK := Status(1, -33)
  const DISCONNECTED := Status(1, -34)
  const NODE_DOWN := Status(1, -42)
  const INVARG := Status(1, -50)

  /** flags & ACNET_FLG_MLT */
  predicate Mlt(flags: nat) { flags % 2 == 1 }

  /** flags | ACNET_FLG_MLT and flags & ~ACNET_FLG_MLT */
  function SetMlt(flags: nat): nat { if Mlt(flags) then flags else flags + 1 }
  function ClearMlt(flags: nat): nat { flags - flags % 2 }

  /** (flags & ACNET_FLG_TYPE) == ACNET_FLG_RPY; the type is bits 1 and 2. */
  predicate IsReply(flags: nat) { flags / 2 % 4 == FLG_RPY / 2 }

  predicate Fatal(status: int) { status < 0 }

  /** AcnetHeader::isEMR: does this reply end a multiple reply? */
  predicate IsEmr(h: Header) {
    !Mlt(h.flags) || h.status == ENDMULT || Fatal(h.status)
  }

  /** MSG_LENGTH: the length of a payload once padded to an even count. */
  function Padded(n: nat): (r: nat)
    ensures n <= r <= n + 1
  {
    if n == 0 then 0 else if n == 1 then 2 else 2 + Padded(n - 2)
  }

  lemma {:induction false} PaddedIs(n: nat)
    ensures Padded(n) == n + n % 2
  {
    if n >= 2 { PaddedIs(n - 2); }
  }

  /** setStatus(rpyid_t): the id's 16 bits read as an int16_t. */
  function AsStatus(id: nat): int { if id < 0x8000 then id else id - 0x1_0000 }
}

/** The memo of src/ResourceManager.h: the buffer every thread passes on, and its codes
    (src/Common.h). */
module Memos {
  import opened MachineInts

  datatype MemoCode =
    | Enc | Dec | Play | Rec | Send | Report | Respond
    | SipInvite | SipAccept | SipReject | SipBye | SipSend | SipRcvd
    | Other

  class Memo {
    var id: Short
    var code: MemoCode
    var data1: int
    var data2: int
    const bytes: array<SByte>

    constructor (id: Short, size: nat)
      ensures this.id == id && bytes.Length == size && fresh(bytes)
    {
      this.id := id;
      bytes := new SByte[size](_ => 0);
      code, data1, data2 := Other, 0, 0;
    }

    // data1 counts the bytes in use.
    ghost predicate Valid()
      reads this
    {
      0 <= data1 <= bytes.Length
    }

    ghost function Contents(): seq<SByte>
      reads this, bytes
      requires Valid()
    {
      bytes[..data1]
    }
  }
}

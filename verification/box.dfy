/** Protocol tables of the box module: limits, request flags, message ids
    and the codes of the update-fields operations. */
module Box {
  import opened CTypes
  import opened Wrappers

  // ---------------------------------------------------------------------
  // Limits
  // ---------------------------------------------------------------------

  /** The most indexes a space can have. */
  const BOX_INDEX_MAX: nat := 10

  /** The number of namespaces (spaces). */
  const BOX_NAMESPACE_MAX: nat := 256

  /** The most operations one update-fields request may carry. */
  const BOX_UPDATE_FIELDS_OP_CNT_MAX: nat := 128

  // ---------------------------------------------------------------------
  // Request flags
  // ---------------------------------------------------------------------

  const BOX_RETURN_TUPLE: bv32 := 0x01
  const BOX_ADD: bv32 := 0x02
  const BOX_REPLACE: bv32 := 0x04
  const BOX_NOT_STORE: bv32 := 0x10
  /** A flag the server sets on its own transactions. */
  const BOX_GC_TXN: bv32 := 0x20

  /** The flags a client request may carry. */
  const BOX_ALLOWED_REQUEST_FLAGS: bv32 := BOX_RETURN_TUPLE | BOX_ADD | BOX_REPLACE | BOX_NOT_STORE

  /** All request flags, in bit order. */
  const REQUEST_FLAGS: seq<bv32> := [BOX_RETURN_TUPLE, BOX_ADD, BOX_REPLACE, BOX_NOT_STORE, BOX_GC_TXN]

  /** A word with exactly one bit set. */
  predicate SingleBit(x: bv32)
  {
    x != 0 && x & (x - 1) == 0
  }

  /** A flag word uses only the flags a client may send. */
  predicate ClientFlags(flags: bv32)
  {
    flags & !BOX_ALLOWED_REQUEST_FLAGS == 0
  }

  /** Every request flag is one bit, and no two flags share a bit, so any
      combination of them can be taken apart again. */
  lemma RequestFlagsAreDistinctBits()
    ensures forall i :: 0 <= i < |REQUEST_FLAGS| ==> SingleBit(REQUEST_FLAGS[i])
    ensures forall i, j :: 0 <= i < j < |REQUEST_FLAGS| ==> REQUEST_FLAGS[i] & REQUEST_FLAGS[j] == 0
  {
  }

  /** The client mask is 0x17: it admits exactly return-tuple, add, replace
      and not-store, and never the server's internal GC flag. */
  lemma AllowedFlagsMask(flags: bv32)
    ensures BOX_ALLOWED_REQUEST_FLAGS == 0x17
    ensures ClientFlags(flags) ==> flags & BOX_GC_TXN == 0
    ensures ClientFlags(BOX_RETURN_TUPLE) && ClientFlags(BOX_ADD) && ClientFlags(BOX_REPLACE)
            && ClientFlags(BOX_NOT_STORE) && !ClientFlags(BOX_GC_TXN)
  {
  }

  // ---------------------------------------------------------------------
  // Message ids
  // ---------------------------------------------------------------------

  /** The request types the server accepts. */
  datatype Message = Replace | Select | Update | Delete_1_3 | Delete | Call

  /** The id of each request type on the wire. */
  function MessageId(m: Message): (id: nat)
    ensures 13 <= id <= 22 && id !in DEPRECATED_IDS
  {
    match m
    case Replace => 13
    case Select => 17
    case Update => 19
    case Delete_1_3 => 20
    case Delete => 21
    case Call => 22
  }

  /** The request type an id on the wire denotes, if any. */
  function DecodeMessage(id: nat): (r: Option<Message>)
    ensures r.Some? ==> MessageId(r.value) == id
  {
    match id
    case 13 => Some(Replace)
    case 17 => Some(Select)
    case 19 => Some(Update)
    case 20 => Some(Delete_1_3)
    case 21 => Some(Delete)
    case 22 => Some(Call)
    case _ => None
  }

  /** The retired request ids, which must never be given to a new
      request type (the deprecated INSERT, DELETE, SET_FIELD, ARITH, SELECT,
      UPDATE_FIELDS, JUBOX_ALIVE, SELECT_LIMIT, SELECT_OLD and
      UPDATE_FIELDS_OLD commands). */
  const DEPRECATED_IDS: set<nat> := {1, 2, 3, 5, 6, 7, 4, 8, 9, 10, 11, 12, 14, 15, 16}

  /** The retired ids are 1 to 16 except 13, the one id kept (by REPLACE). */
  lemma DeprecatedIdsRange(i: nat)
    ensures i in DEPRECATED_IDS <==> 1 <= i <= 16 && i != 13
  {
  }

  /** Every live request id decodes back to its request type, so no two
      request types share an id. */
  lemma MessageIdRoundTrip(m: Message, n: Message)
    ensures DecodeMessage(MessageId(m)) == Some(m)
    ensures MessageId(m) == MessageId(n) <==> m == n
  {
  }


  // ---------------------------------------------------------------------
  // Update-fields operation codes
  // ---------------------------------------------------------------------

  /** The operations an update-fields request can apply to a field. */
  datatype UpdateOp = SetField | AddInt | BitAndInt | BitXorInt | BitOrInt | SpliceStr | DeleteField

  /** The one-byte code of each operation. */
  function OpCode(op: UpdateOp): (c: u8)
    ensures c <= 6
  {
    match op
    case SetField => 0
    case AddInt => 1
    case BitAndInt => 2
    case BitXorInt => 3
    case BitOrInt => 4
    case SpliceStr => 5
    case DeleteField => 6
  }

  /** The operation a code byte denotes, if any. */
  function DecodeOp(b: u8): (r: Option<UpdateOp>)
    ensures r.Some? ==> OpCode(r.value) == b
    ensures r.None? <==> b > 6
  {
    match b
    case 0 => Some(SetField)
    case 1 => Some(AddInt)
    case 2 => Some(BitAndInt)
    case 3 => Some(BitXorInt)
    case 4 => Some(BitOrInt)
    case 5 => Some(SpliceStr)
    case 6 => Some(DeleteField)
    case _ => None
  }

  /** The codes are a bijection between the seven operations and 0..6. */
  lemma OpCodeBijection(op: UpdateOp, other: UpdateOp)
    ensures OpCode(op) <= 6
    ensures DecodeOp(OpCode(op)) == Some(op)
    ensures OpCode(op) == OpCode(other) <==> op == other
  {
  }

  /** Why a sequence of operation codes was refused. */
  datatype OpsError = TooManyOps | UnknownOp(index: nat)

  /** Decode the operation codes of one update-fields request: at most
      BOX_UPDATE_FIELDS_OP_CNT_MAX operations, each code known. */
  function DecodeOps(codes: seq<u8>): (r: Result<seq<UpdateOp>, OpsError>)
    ensures r == Failure(TooManyOps) <==> |codes| > BOX_UPDATE_FIELDS_OP_CNT_MAX
    ensures r.Failure? && r.error.UnknownOp? ==>
              r.error.index < |codes| && codes[r.error.index] > 6
              && forall k :: 0 <= k < r.error.index ==> codes[k] <= 6
    ensures r.Success? ==>
              |r.value| == |codes| <= BOX_UPDATE_FIELDS_OP_CNT_MAX
              && forall k :: 0 <= k < |codes| ==> OpCode(r.value[k]) == codes[k]
  {
    if |codes| > BOX_UPDATE_FIELDS_OP_CNT_MAX then Failure(TooManyOps)
    else DecodeEach(codes, 0)
  }

  /** Decode the codes from position `from` on; positions are reported
      relative to the whole sequence. */
  function DecodeEach(codes: seq<u8>, from: nat): (r: Result<seq<UpdateOp>, OpsError>)
    requires from <= |codes|
    requires forall k :: 0 <= k < from ==> codes[k] <= 6
    ensures r.Failure? ==>
              r.error.UnknownOp? && from <= r.error.index < |codes| && codes[r.error.index] > 6
              && forall k :: 0 <= k < r.error.index ==> codes[k] <= 6
    ensures r.Success? ==>
              |r.value| == |codes| - from
              && forall k :: from <= k < |codes| ==> OpCode(r.value[k - from]) == codes[k]
    decreases |codes| - from
  {
    if from == |codes| then Success([])
    else match DecodeOp(codes[from])
      case None => Failure(UnknownOp(from))
      case Some(op) =>
        match DecodeEach(codes, from + 1)
        case Failure(e) => Failure(e)
        case Success(rest) => Success([op] + rest)
  }

  /** The code bytes of a batch of operations, in order. */
  function EncodeOps(ops: seq<UpdateOp>): (codes: seq<u8>)
    ensures |codes| == |ops|
  {
    seq(|ops|, i requires 0 <= i < |ops| => OpCode(ops[i]))
  }

  /** Encoding a batch of at most BOX_UPDATE_FIELDS_OP_CNT_MAX operations
      and decoding it gives the batch back. */
  lemma DecodeOpsRoundTrip(ops: seq<UpdateOp>)
    requires |ops| <= BOX_UPDATE_FIELDS_OP_CNT_MAX
    ensures DecodeOps(EncodeOps(ops)) == Success(ops)
  {
    var codes := EncodeOps(ops);
    forall k | 0 <= k < |ops|
      ensures codes[k] <= 6
    {
      OpCodeBijection(ops[k], ops[k]);
    }
    var r := DecodeOps(codes);
    assert r.Success?;
    forall k | 0 <= k < |ops|
      ensures r.value[k] == ops[k]
    {
      OpCodeBijection(r.value[k], ops[k]);
    }
    assert r.value == ops;
  }
}

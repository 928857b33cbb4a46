/** The commands the compiler emits, the packets they are lowered to, and their effect on
    the state a draw sees. */
module Commands {
  import opened Wrappers
  import opened WireFormat
  import opened Accesses
  import opened Pm4
  import opened Stream
  import W = SubmitWire

  const CP_REG_WRITE := 0x6d
  const CP_DRAW_INDX_OFFSET := 0x38
  const CP_LOAD_STATE6_GEOM := 0x32
  const CP_LOAD_STATE6_FRAG := 0x34
  const CP_MEM_WRITE := 0x3d
  const CP_MEMCPY := 0x75
  const WAIT_MEM_WRITES := 0x12
  const WAIT_FOR_IDLE := 0x26
  const EVENT_WRITE := 0x46

  /** A dword, or an address field. */
  datatype Field = Val(value: u32) | Ref(ref: Address)

  datatype Command =
    | Write(register: u32, fields: seq<Field>)
    | TrackedWrite(register: u32, value: u32)
    | LoadDirect(opcode: nat, block: nat, stateType: nat, units: nat, values: seq<u32>)
    | LoadIndirect(opcode: nat, block: nat, stateType: nat, units: nat, ref: Address)
    | Run(opcode: nat, fields: seq<Field>)

  function U32(x: nat): u32 { x % 0x1_0000_0000 }

  function Vals(values: seq<u32>): (fs: seq<Field>)
    ensures |fs| == |values|
  {
    seq(|values|, i requires 0 <= i < |values| => Val(values[i]))
  }

  function Zeroes(n: nat): seq<Field> { seq(n, _ => Val(0)) }

  function At(target: ObjectRef, offset: u64, size: u64, access: Access): Field {
    Ref(Address(target, offset, size, access, W.GpuVa64))
  }

  // ---- lowering ------------------------------------------------------------------------------------------------

  function FieldCodes(f: Field): seq<Code> {
    match f case Val(value) => [Word(value)] case Ref(ref) => [Low(ref), High(ref)]
  }

  function Expand(fs: seq<Field>): seq<Code> {
    if fs == [] then [] else FieldCodes(fs[0]) + Expand(fs[1..])
  }

  /** The first payload dword of a state load: the kind of state, where it comes from, and how much. */
  function Control(stateType: nat, indirect: bool, block: nat, units: nat): u32 {
    U32(stateType * 0x4000 + (if indirect then 2 else 0) * 0x1_0000 + block * 0x4_0000 + units * 0x40_0000)
  }

  function HeadOf(h: Header): Code { Head(h, if Representable(h) then HeaderWord(h) else 0) }

  function Build(h: Header, fs: seq<Field>): Packet { [HeadOf(h)] + Expand(fs) }

  function Payload(c: Command): seq<Field> {
    match c
    case Write(_, fields) => fields
    case TrackedWrite(register, value) => [Val(2), Val(register), Val(value)]
    case LoadDirect(_, block, stateType, units, values) => [Val(Control(stateType, false, block, units)), Val(0), Val(0)] + Vals(values)
    case LoadIndirect(_, block, stateType, units, ref) => [Val(Control(stateType, true, block, units)), Ref(ref)]
    case Run(_, fields) => fields
  }

  function HeaderOf(c: Command): Header {
    var count := |Expand(Payload(c))|;
    match c
    case Write(register, _) => Type4(register, count)
    case TrackedWrite(_, _) => Type7(CP_REG_WRITE, count)
    case LoadDirect(opcode, _, _, _, _) => Type7(opcode, count)
    case LoadIndirect(opcode, _, _, _, _) => Type7(opcode, count)
    case Run(opcode, _) => Type7(opcode, count)
  }

  function Lower(c: Command): Packet { Build(HeaderOf(c), Payload(c)) }

  function LowerAll(cs: seq<Command>): seq<Packet> {
    seq(|cs|, i requires 0 <= i < |cs| => Lower(cs[i]))
  }

  predicate NoHeads(cs: seq<Code>) {
    forall i | 0 <= i < |cs| :: !cs[i].Head?
  }

  lemma {:induction false} ExpandShaped(fs: seq<Field>)
    ensures Paired(Expand(fs)) && NoHeads(Expand(fs))
  {
    if fs != [] {
      ExpandShaped(fs[1..]);
      PairedConcat(FieldCodes(fs[0]), Expand(fs[1..]));
    }
  }

  /** A lowered command is a packet whose header counts its payload. */
  lemma LowerShaped(c: Command)
    ensures Shaped(Lower(c)) && (Representable(HeaderOf(c)) ==> Whole(Lower(c)))
    ensures Lower(c)[0].header == HeaderOf(c)
  {
    ExpandShaped(Payload(c));
    PairedConcat([HeadOf(HeaderOf(c))], Expand(Payload(c)));
  }

  // ---- effect --------------------------------------------------------------------------------------------------

  /** A piece of state a draw can see: a register, or one slot of loaded state. */
  datatype Key = Register(n: int) | Loaded(opcode: nat, block: nat, stateType: nat, slot: int)

  datatype Value = Slot(code: Code) | Fetched(ref: Address, slot: int)

  predicate Sets(c: Command, k: Key) {
    match c
    case Write(register, fields) => k.Register? && register <= k.n < register + |Expand(fields)|
    case TrackedWrite(register, _) => k == Register(register)
    case LoadDirect(opcode, block, stateType, _, values) =>
      k.Loaded? && k.opcode == opcode && k.block == block && k.stateType == stateType && 0 <= k.slot < |values|
    case LoadIndirect(opcode, block, stateType, units, _) =>
      k.Loaded? && k.opcode == opcode && k.block == block && k.stateType == stateType && 0 <= k.slot < units
    case Run(_, _) => false
  }

  function SetValue(c: Command, k: Key): Value
    requires Sets(c, k)
  {
    match c
    case Write(register, fields) => Slot(Expand(fields)[k.n - register])
    case TrackedWrite(_, value) => Slot(Word(value))
    case LoadDirect(_, _, _, _, values) => Slot(Word(values[k.slot]))
    case LoadIndirect(_, _, _, _, ref) => Fetched(ref, k.slot)
  }

  /** The value the commands leave at k, or None when they do not touch it. */
  function Final(cs: seq<Command>, k: Key): Option<Value> {
    if cs == [] then None
    else
      var last := cs[|cs| - 1];
      if Sets(last, k) then Some(SetValue(last, k)) else Final(cs[..|cs| - 1], k)
  }

  lemma {:induction false} FinalConcat(a: seq<Command>, b: seq<Command>, k: Key)
    ensures Final(a + b, k) == if Final(b, k).Some? then Final(b, k) else Final(a, k)
  {
    if b == [] {
      assert a + b == a;
    } else {
      assert (a + b)[..|a + b| - 1] == a + b[..|b| - 1];
      FinalConcat(a, b[..|b| - 1], k);
    }
  }

  /** The commands leave k alone. */
  ghost predicate Spares(cs: seq<Command>, k: Key) {
    forall i | 0 <= i < |cs| :: !Sets(cs[i], k)
  }

  lemma {:induction false} SparedIsNone(cs: seq<Command>, k: Key)
    requires Spares(cs, k)
    ensures Final(cs, k) == None
  {
    if cs != [] {
      SparedIsNone(cs[..|cs| - 1], k);
    }
  }

  /** Everything a draw packet sees: the state at that point, and its own operands. */
  datatype Shot = Shot(state: iset<(Key, Value)>, call: seq<Field>)

  predicate IsDraw(c: Command) { c.Run? && c.opcode == CP_DRAW_INDX_OFFSET }

  ghost function StateAfter(cs: seq<Command>): iset<(Key, Value)> {
    iset k: Key, v: Value | Final(cs, k) == Some(v) :: (k, v)
  }

  /** The draws of a stream in order, each with the state it sees. */
  ghost function Shots(cs: seq<Command>): seq<Shot> {
    if cs == [] then []
    else
      var front, last := cs[..|cs| - 1], cs[|cs| - 1];
      Shots(front) + if IsDraw(last) then [Shot(StateAfter(front), last.fields)] else []
  }
}

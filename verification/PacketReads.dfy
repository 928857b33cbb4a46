/** What a packet does to the state a draw sees, read off its header and payload, and that this is the effect of the
    command it was lowered from. */
module PacketReads {
  import opened Wrappers
  import opened WireFormat
  import opened Stream
  import opened Commands
  import opened DrawDelta
  import Descriptors
  import R = RegisterReads

  /** The fields of the first dword of a state load. */
  function LoadKind(w: u32): nat { w / 0x4000 % 4 }
  function LoadSource(w: u32): nat { w / 0x1_0000 % 4 }
  function LoadBlock(w: u32): nat { w / 0x4_0000 % 16 }
  function LoadUnits(w: u32): nat { w / 0x40_0000 }

  /** A register write puts its payload into consecutive registers, a tracked write one value into the register it names,
      and a state load fills slots from its payload or from memory. */
  function PacketSets(p: Packet, k: Key): Option<Value> {
    if p == [] || !p[0].Head? then None
    else
      match p[0].header
      case Type4(register, _) =>
        if k.Register? && register <= k.n < register + |p| - 1 then Some(Slot(p[1 + k.n - register])) else None
      case Type7(opcode, _) =>
        if opcode == 0x6d then
          if |p| == 4 && p[2].Word? && k == Register(p[2].value) then Some(Slot(p[3])) else None
        else if (opcode == 0x32 || opcode == 0x34) && |p| >= 4 && p[1].Word? && k.Loaded? then LoadSets(p, p[1].value, opcode, k)
        else None
  }

  function LoadSets(p: Packet, w: u32, opcode: nat, k: Key): Option<Value>
    requires |p| >= 4 && k.Loaded?
  {
    if k.opcode != opcode || k.block != LoadBlock(w) || k.stateType != LoadKind(w) || k.slot < 0 then None
    else if LoadSource(w) == 0 then (if k.slot < |p| - 4 then Some(Slot(p[4 + k.slot])) else None)
    else if LoadSource(w) == 2 && p[2].Low? then (if k.slot < LoadUnits(w) then Some(Fetched(p[2].ref, k.slot)) else None)
    else None
  }

  /** The command's numbers fit the fields of its packet. */
  predicate Fitting(c: Command) {
    match c
    case Write(_, _) => true
    case TrackedWrite(_, _) => true
    case LoadDirect(opcode, block, stateType, units, values) =>
      (opcode == 0x32 || opcode == 0x34) && block < 16 && stateType < 4 && units < 0x400
    case LoadIndirect(opcode, block, stateType, units, _) =>
      (opcode == 0x32 || opcode == 0x34) && block < 16 && stateType < 4 && units < 0x400
    case Run(opcode, _) => opcode != 0x6d && opcode != 0x32 && opcode != 0x34
  }

  lemma ControlFields(stateType: nat, indirect: bool, block: nat, units: nat, w: u32)
    requires block < 16 && stateType < 4 && units < 0x400 && w == Control(stateType, indirect, block, units)
    ensures LoadKind(w) == stateType && LoadSource(w) == (if indirect then 2 else 0) && LoadBlock(w) == block && LoadUnits(w) == units
  {
    var source := if indirect then 2 else 0;
    assert w == stateType * 0x4000 + source * 0x1_0000 + block * 0x4_0000 + units * 0x40_0000;
    assert w / 0x4000 == stateType + source * 4 + block * 16 + units * 256;
    assert w / 0x1_0000 == source + block * 4 + units * 64;
    assert w / 0x4_0000 == block + units * 16;
  }

  lemma WriteEffect(c: Command, k: Key)
    requires c.Write?
    ensures PacketSets(Lower(c), k) == if Sets(c, k) then Some(SetValue(c, k)) else None
  {
    var p := Lower(c);
    assert p == [HeadOf(HeaderOf(c))] + Expand(c.fields);
  }

  lemma TrackedEffect(c: Command, k: Key)
    requires c.TrackedWrite?
    ensures PacketSets(Lower(c), k) == if Sets(c, k) then Some(SetValue(c, k)) else None
  {
    ThreeWords(2, c.register, c.value);
    assert Lower(c) == [HeadOf(HeaderOf(c)), Word(2), Word(c.register), Word(c.value)];
  }

  lemma ThreeWords(a: u32, b: u32, c: u32)
    ensures Expand([Val(a), Val(b), Val(c)]) == [Word(a), Word(b), Word(c)]
  {
    assert [Val(a), Val(b), Val(c)][1..] == [Val(b), Val(c)] && [Val(b), Val(c)][1..] == [Val(c)];
    R.OneWord(c);
  }

  lemma DirectPacket(c: Command)
    requires c.LoadDirect?
    ensures var w := Control(c.stateType, false, c.block, c.units);
            && |Lower(c)| == 4 + |c.values| && Lower(c)[0] == HeadOf(HeaderOf(c)) && Lower(c)[1] == Word(w)
            && forall j | 0 <= j < |c.values| :: Lower(c)[4 + j] == Word(c.values[j])
  {
    var w := Control(c.stateType, false, c.block, c.units);
    ThreeWords(w, 0, 0);
    R.ExpandWords(c.values);
    Descriptors.ExpandConcat([Val(w), Val(0), Val(0)], Vals(c.values));
  }

  lemma DirectEffect(c: Command, k: Key)
    requires c.LoadDirect? && Fitting(c)
    ensures PacketSets(Lower(c), k) == if Sets(c, k) then Some(SetValue(c, k)) else None
  {
    var w := Control(c.stateType, false, c.block, c.units);
    DirectPacket(c);
    ControlFields(c.stateType, false, c.block, c.units, w);
  }

  lemma IndirectEffect(c: Command, k: Key)
    requires c.LoadIndirect? && Fitting(c)
    ensures PacketSets(Lower(c), k) == if Sets(c, k) then Some(SetValue(c, k)) else None
  {
    var w := Control(c.stateType, true, c.block, c.units);
    ControlFields(c.stateType, true, c.block, c.units, w);
    IndirectPacket(w, c.ref);
    assert Lower(c) == [HeadOf(HeaderOf(c)), Word(w), Low(c.ref), High(c.ref)];
  }

  lemma IndirectPacket(w: u32, ref: Address)
    ensures Expand([Val(w), Ref(ref)]) == [Word(w), Low(ref), High(ref)]
  {
    TwoWords(0, 0, ref);
    assert [Val(w), Ref(ref)][1..] == [Ref(ref)];
  }

  /** Lowering keeps the effect: what the packet's own bits say it sets is what the command sets. */
  lemma PacketEffect(c: Command, k: Key)
    requires Fitting(c)
    ensures PacketSets(Lower(c), k) == if Sets(c, k) then Some(SetValue(c, k)) else None
  {
    match c
    case Write(_, _) => WriteEffect(c, k);
    case TrackedWrite(_, _) => TrackedEffect(c, k);
    case LoadDirect(_, _, _, _, _) => DirectEffect(c, k);
    case LoadIndirect(_, _, _, _, _) => IndirectEffect(c, k);
    case Run(_, _) =>
  }
}

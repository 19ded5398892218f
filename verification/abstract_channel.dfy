/** The flag word of an abstract channel: a 32-bit `int` whose top twelve
    bits are reserved for channel-level flags. */
module AbstractChannel {

  type Flags = bv32

  const ActorFlag: Flags := 0x0100_0000
  const GroupFlag: Flags := 0x0200_0000
  const BindDecoratorFlag: Flags := 0x0400_0000
  const DotDecoratorFlag: Flags := 0x0800_0000
  const DecoratorMask: Flags := 0x0C00_0000
  const HiddenFlag: Flags := 0x1000_0000

  /** Bits subtypes must leave to the channel. */
  const ReservedMask: Flags := 0xFFF0_0000

  predicate SingleBit(x: Flags) {
    x != 0 && x & (x - 1) == 0
  }

  predicate IsAbstractActor(f: Flags) {
    f & ActorFlag != 0
  }

  predicate IsAbstractGroup(f: Flags) {
    f & GroupFlag != 0
  }

  predicate IsActorDecorator(f: Flags) {
    f & DecoratorMask != 0
  }

  /** The five flags are distinct single bits, the decorator mask is the
      union of the two decorator bits, and all lie in the reserved mask. */
  lemma FlagLayout()
    ensures SingleBit(ActorFlag) && SingleBit(GroupFlag) && SingleBit(BindDecoratorFlag)
    ensures SingleBit(DotDecoratorFlag) && SingleBit(HiddenFlag)
    ensures ActorFlag & GroupFlag == 0 && ActorFlag & BindDecoratorFlag == 0
    ensures ActorFlag & DotDecoratorFlag == 0 && ActorFlag & HiddenFlag == 0
    ensures GroupFlag & BindDecoratorFlag == 0 && GroupFlag & DotDecoratorFlag == 0
    ensures GroupFlag & HiddenFlag == 0 && BindDecoratorFlag & DotDecoratorFlag == 0
    ensures BindDecoratorFlag & HiddenFlag == 0 && DotDecoratorFlag & HiddenFlag == 0
    ensures DecoratorMask == BindDecoratorFlag | DotDecoratorFlag
    ensures ActorFlag | GroupFlag | DecoratorMask | HiddenFlag == (ActorFlag | GroupFlag | DecoratorMask | HiddenFlag) & ReservedMask
  {
  }

  /** Each type predicate reads only its own bit: setting or clearing any
      other bit leaves it unchanged, and setting or clearing its bit decides
      it. */
  lemma ActorBitDecides(f: Flags)
    ensures IsAbstractActor(f | ActorFlag) && !IsAbstractActor(f & !ActorFlag)
  {
  }

  lemma ActorBitSetIndependent(f: Flags, other: Flags)
    requires other & ActorFlag == 0
    ensures IsAbstractActor(f | other) == IsAbstractActor(f)
  {
  }

  lemma ActorBitClearIndependent(f: Flags, other: Flags)
    requires other & ActorFlag == 0
    ensures IsAbstractActor(f & !other) == IsAbstractActor(f)
  {
  }

  lemma GroupBitDecides(f: Flags)
    ensures IsAbstractGroup(f | GroupFlag) && !IsAbstractGroup(f & !GroupFlag)
  {
  }

  lemma GroupBitSetIndependent(f: Flags, other: Flags)
    requires other & GroupFlag == 0
    ensures IsAbstractGroup(f | other) == IsAbstractGroup(f)
  {
  }

  lemma GroupBitClearIndependent(f: Flags, other: Flags)
    requires other & GroupFlag == 0
    ensures IsAbstractGroup(f & !other) == IsAbstractGroup(f)
  {
  }

  /** The decorator test holds iff the bind bit or the dot bit is set. */
  lemma DecoratorEitherBit(f: Flags)
    ensures IsActorDecorator(f) <==> f & BindDecoratorFlag != 0 || f & DotDecoratorFlag != 0
  {
  }

  /** A channel; only its flag word is modelled. */
  datatype Channel = Channel(flags: Flags)

  /** `flags(new_value)`. */
  function SetFlags(c: Channel, v: Flags): Channel {
    Channel(v)
  }

  /** `flags()`. */
  function GetFlags(c: Channel): Flags {
    c.flags
  }

  /** Reading after a store returns the stored word; storing what was read
      changes nothing. */
  lemma StoreThenLoad(c: Channel, v: Flags)
    ensures GetFlags(SetFlags(c, v)) == v
    ensures SetFlags(c, GetFlags(c)) == c
  {
  }
}

/** Permission modes: what is asked for, the bits chmod stores, and the mode read back. */
module Modes {
  datatype Mode =
    | None
    | OwnerReadWrite
    | OwnerReadGroupRead
    | OwnerReadWriteExecute
    | OwnerReadWriteGroupRead
    | OwnerReadWriteGroupReadWrite
    | OwnerReadWriteExecuteGroupReadWriteExecute
    | InheritedOwnerReadWriteExecuteGroupReadWriteExecute
    | OwnerReadWriteExecuteGroupReadWriteExecuteOtherExecute
    | InheritedOwnerReadWriteExecuteGroupReadWriteExecuteOtherExecute
    | Other(bits: nat)

  /** The permission bits of a mode word, below its file type bits: octal 10000. */
  const PERMISSION_BITS := 0x1000

  function Bits(m: Mode): nat
  {
    match m
    case None => 0
    case OwnerReadGroupRead => 0x120 // octal 440
    case OwnerReadWrite => 0x180 // 600
    case OwnerReadWriteExecute => 0x1C0 // 700
    case OwnerReadWriteGroupRead => 0x1A0 // 640
    case OwnerReadWriteGroupReadWrite => 0x1B0 // 660
    case OwnerReadWriteExecuteGroupReadWriteExecute => 0x1F8 // 770
    case InheritedOwnerReadWriteExecuteGroupReadWriteExecute => 0x5F8 // 2770
    case OwnerReadWriteExecuteGroupReadWriteExecuteOtherExecute => 0x1F9 // 771
    case InheritedOwnerReadWriteExecuteGroupReadWriteExecuteOtherExecute => 0x5F9 // 2771
    case Other(v) => v
  }

  /** Two named modes, 440 and 700, are missing from the source's list too. */
  function GetMode(word: nat): Mode
  {
    var bits := word % PERMISSION_BITS;
    if bits == 0 then None
    else if bits == 0x180 then OwnerReadWrite
    else if bits == 0x1A0 then OwnerReadWriteGroupRead
    else if bits == 0x1B0 then OwnerReadWriteGroupReadWrite
    else if bits == 0x1F8 then OwnerReadWriteExecuteGroupReadWriteExecute
    else if bits == 0x5F8 then InheritedOwnerReadWriteExecuteGroupReadWriteExecute
    else if bits == 0x1F9 then OwnerReadWriteExecuteGroupReadWriteExecuteOtherExecute
    else if bits == 0x5F9 then InheritedOwnerReadWriteExecuteGroupReadWriteExecuteOtherExecute
    else Other(bits)
  }

  const RECOGNISED: set<nat> := {0, 0x180, 0x1A0, 0x1B0, 0x1F8, 0x5F8, 0x1F9, 0x5F9}

  /** A mode that can be read back as itself, said without reading it. */
  predicate Observable(m: Mode)
  {
    && m != OwnerReadGroupRead
    && m != OwnerReadWriteExecute
    && (m.Other? ==> m.bits < PERMISSION_BITS && m.bits !in RECOGNISED)
  }

  /** Reading gives `m` exactly for an observable mode whose permission bits were stored. */
  lemma ReadsBack(word: nat, m: Mode)
    ensures GetMode(word) == m <==> Observable(m) && word % PERMISSION_BITS == Bits(m) % PERMISSION_BITS
  {
    var bits := word % PERMISSION_BITS;
    if Observable(m) && m.Other? && bits == m.bits % PERMISSION_BITS {
      assert bits == m.bits && bits !in RECOGNISED;
    }
  }

  /** What setting a mode stores reads back as that mode, exactly for the observable ones. */
  lemma SetThenGet(m: Mode)
    ensures GetMode(Bits(m)) == m <==> Observable(m)
  {
    ReadsBack(Bits(m), m);
  }

  /** Which of the named modes can be read back. */
  lemma NamedModesReadBack(m: Mode)
    requires !m.Other?
    ensures GetMode(Bits(m)) == m <==> m != OwnerReadGroupRead && m != OwnerReadWriteExecute
  {}

  datatype Class = OwnerClass | GroupClass | OtherClass

  datatype Right = MayRead | MayWrite | MayExecute

  /** What the name of a mode promises. */
  predicate Promises(m: Mode, c: Class, r: Right)
    requires !m.Other?
  {
    match m
    case None => false
    case OwnerReadWrite => c == OwnerClass && r != MayExecute
    case OwnerReadGroupRead => c != OtherClass && r == MayRead
    case OwnerReadWriteExecute => c == OwnerClass
    case OwnerReadWriteGroupRead => (c == OwnerClass && r != MayExecute) || (c == GroupClass && r == MayRead)
    case OwnerReadWriteGroupReadWrite => c != OtherClass && r != MayExecute
    case OwnerReadWriteExecuteGroupReadWriteExecute => c != OtherClass
    case InheritedOwnerReadWriteExecuteGroupReadWriteExecute => c != OtherClass
    case OwnerReadWriteExecuteGroupReadWriteExecuteOtherExecute => c != OtherClass || r == MayExecute
    case InheritedOwnerReadWriteExecuteGroupReadWriteExecuteOtherExecute => c != OtherClass || r == MayExecute
  }

  predicate PromisesInheritance(m: Mode)
  {
    || m.InheritedOwnerReadWriteExecuteGroupReadWriteExecute?
    || m.InheritedOwnerReadWriteExecuteGroupReadWriteExecuteOtherExecute?
  }

  /** The octal digit that is about a class. */
  function Digit(bits: nat, c: Class): (n: nat)
    ensures n < 8
  {
    match c
    case OwnerClass => bits / 64 % 8
    case GroupClass => bits / 8 % 8
    case OtherClass => bits % 8
  }

  const SETGID := 1024
  const STICKY := 512
  const SETUID := 2048

  /** Permission bits grant the right to the class. */
  predicate Grants(bits: nat, c: Class, r: Right)
  {
    var digit := Digit(bits, c);
    match r
    case MayRead => digit >= 4
    case MayWrite => digit % 4 >= 2
    case MayExecute => digit % 2 == 1
  }

  /** The bits of a named mode grant exactly what its name promises, and ask for nothing else. */
  lemma NamedModesGrantExactly(m: Mode, c: Class, r: Right)
    requires !m.Other?
    ensures Grants(Bits(m), c, r) <==> Promises(m, c, r)
    ensures Bits(m) / SETGID % 2 == 1 <==> PromisesInheritance(m)
    ensures Bits(m) / STICKY % 2 == 0 && Bits(m) < SETUID
  {}

  /** So no named mode lets anybody but the owner and the group read or write. */
  lemma NamedModesKeepOthersOut(m: Mode, r: Right)
    requires !m.Other?
    ensures r != MayExecute ==> !Grants(Bits(m), OtherClass, r)
  {
    NamedModesGrantExactly(m, OtherClass, r);
  }
}

/** Matlab array classes and the C++ voxel types the ITK wrappers
    instantiate for them, shared by ItkImFilter and BaseFilter. */
module VoxelTypes {
  import opened MexErrors

  /** mxClassID: the class of a Matlab array. */
  datatype ClassId =
    | UnknownClass | CellClass | StructClass | LogicalClass | CharClass | VoidClass
    | DoubleClass | SingleClass | Int8Class | Uint8Class | Int16Class | Uint16Class
    | Int32Class | Uint32Class | Int64Class | Uint64Class | FunctionClass | OpaqueClass
    | ObjectClass

  /** The voxel types the wrappers are instantiated with. `Logical` stands
      for both mxLogical and bool. */
  datatype VoxelType = Logical | Dbl | Float | I8 | U8 | I16 | U16 | I32 | I64

  const UnknownTypeError := "Input matrix has unknown type."
  const InvalidTypeError := "Input matrix has invalid type."

  /** The classes with a voxel type. */
  predicate Supported(cls: ClassId) {
    cls in {LogicalClass, DoubleClass, SingleClass, Int8Class, Uint8Class,
            Int16Class, Uint16Class, Int32Class, Int64Class}
  }

  /** The switch on the input class: each supported class has its own voxel
      type; uint32, uint64 and the non-numeric classes are rejected, the
      unknown class with its own message. */
  function InputVoxelType(cls: ClassId): (t: Result<VoxelType>)
    ensures t.Ok? <==> Supported(cls)
    ensures t.Err? ==> t.msg == (if cls == UnknownClass then UnknownTypeError else InvalidTypeError)
    ensures t.Ok? ==> ClassOf(t.value) == cls
  {
    match cls
    case LogicalClass => Ok(Logical)
    case DoubleClass => Ok(Dbl)
    case SingleClass => Ok(Float)
    case Int8Class => Ok(I8)
    case Uint8Class => Ok(U8)
    case Int16Class => Ok(I16)
    case Uint16Class => Ok(U16)
    case Int32Class => Ok(I32)
    case Int64Class => Ok(I64)
    case UnknownClass => Err(UnknownTypeError)
    case _ => Err(InvalidTypeError)
  }

  /** The Matlab class that holds a voxel type. */
  function ClassOf(t: VoxelType): ClassId {
    match t
    case Logical => LogicalClass
    case Dbl => DoubleClass
    case Float => SingleClass
    case I8 => Int8Class
    case U8 => Uint8Class
    case I16 => Int16Class
    case U16 => Uint16Class
    case I32 => Int32Class
    case I64 => Int64Class
  }

  /** Each voxel type comes from exactly one class, so no two classes share
      a voxel type. */
  lemma InputVoxelTypeInjective(a: ClassId, b: ClassId)
    requires InputVoxelType(a).Ok? && InputVoxelType(b).Ok?
    ensures InputVoxelType(a) == InputVoxelType(b) <==> a == b
  {
  }

  /** The output voxel type of the Danielsson distance map, from nbit, the
      number of bits of the largest distance in the volume. */
  function DanielssonOutput(nbit: nat): (t: VoxelType)
    ensures t in {Logical, U8, U16, Float, Dbl}
  {
    if nbit <= 2 then Logical
    else if nbit <= 8 then U8
    else if nbit <= 16 then U16
    else if nbit <= 128 then Float
    else Dbl
  }

  /** The powers of two a type reaches: its bits for the unsigned integer
      types, the largest binary exponent for the floating-point types. */
  function Reach(t: VoxelType): nat {
    match t
    case Logical => 1
    case U8 => 8
    case U16 => 16
    case Float => 128
    case Dbl => 1024
    case I8 => 7
    case I16 => 15
    case I32 => 31
    case I64 => 63
  }

  /** A larger nbit never selects a narrower type. */
  lemma DanielssonOutputMonotone(m: nat, n: nat)
    requires m <= n
    ensures Reach(DanielssonOutput(m)) <= Reach(DanielssonOutput(n))
  {
  }

  /** Above two bits the selected type reaches nbit bits (up to double's
      range); at one or two bits the selected logical type reaches only
      one. */
  lemma DanielssonOutputReaches(nbit: nat)
    ensures 2 < nbit <= 1024 ==> nbit <= Reach(DanielssonOutput(nbit))
    ensures nbit <= 2 ==> Reach(DanielssonOutput(nbit)) == 1
  {
  }
}

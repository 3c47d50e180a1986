/**
 * The type tables of main.cpp: PLY property types to torch dtypes, torch
 * dtypes to PLY type names, and torch dtypes to element widths.
 */
module DTypes {

  import opened Wrappers
  import opened Errors

  /** miniply's property type tags; NoneType is the count type of a scalar property. */
  datatype PlyPropertyType = Char | UChar | Short | UShort | Int | UInt | Float | Double | NoneType

  /** torch scalar types: the eight the tables know and some of those they do not. */
  datatype DType =
    | UInt8 | Int8 | UInt16 | Int16 | UInt32 | Int32 | Float32 | Float64
    | Int64 | UInt64 | Float16 | BFloat16 | Bool | ComplexFloat | ComplexDouble

  /** Bytes per element of a torch dtype (torch's element_size). */
  function ItemSize(d: DType): nat
  {
    match d
    case UInt8 => 1   case Int8 => 1    case Bool => 1
    case UInt16 => 2  case Int16 => 2   case Float16 => 2  case BFloat16 => 2
    case UInt32 => 4  case Int32 => 4   case Float32 => 4
    case Float64 => 8 case Int64 => 8   case UInt64 => 8   case ComplexFloat => 8
    case ComplexDouble => 16
  }

  predicate IsSignedInteger(d: DType) { d == Int8 || d == Int16 || d == Int32 || d == Int64 }

  /** Bytes per value of a PLY property type, as the PLY format defines them. */
  function PlyWidth(t: PlyPropertyType): nat
  {
    match t
    case Char => 1  case UChar => 1
    case Short => 2 case UShort => 2
    case Int => 4   case UInt => 4  case Float => 4
    case Double => 8
    case NoneType => 0
  }

  predicate PlySigned(t: PlyPropertyType) { t == Char || t == Short || t == Int }

  /** The PLY header token of each property type. */
  function PlyName(t: PlyPropertyType): string
  {
    match t
    case Char => "char"   case UChar => "uchar"
    case Short => "short" case UShort => "ushort"
    case Int => "int"     case UInt => "uint"
    case Float => "float" case Double => "double"
    case NoneType => ""
  }

  /**
   * Bytes per value of a header type token, for the names and the sized
   * aliases the PLY format allows; absent for any other token.
   */
  function TokenWidth(token: string): Option<nat>
  {
    if token in ["char", "uchar", "int8", "uint8"] then Some(1)
    else if token in ["short", "ushort", "int16", "uint16"] then Some(2)
    else if token in ["int", "uint", "float", "int32", "uint32", "float32"] then Some(4)
    else if token in ["double", "float64"] then Some(8)
    else None
  }

  /** The eight dtypes the writer tables know. */
  predicate HasPlyType(d: DType)
  {
    d.UInt8? || d.Int8? || d.UInt16? || d.Int16? || d.UInt32? || d.Int32? || d.Float32? || d.Float64?
  }

  /**
   * get_torch_dtype: every PLY type but NoneType has a dtype, of the same
   * width; signedness is kept except for char, which becomes an unsigned byte.
   */
  function GetTorchDtype(t: PlyPropertyType): (r: Result<DType, CodecError>)
    ensures r.Failure? <==> t == NoneType
    ensures r.Failure? ==> r.error == UnknownPlyType
    ensures r.Success? ==> ItemSize(r.value) == PlyWidth(t) && HasPlyType(r.value)
    ensures r.Success? && t != Char ==> (IsSignedInteger(r.value) <==> PlySigned(t))
    ensures t == Char ==> r == Success(UInt8)
  {
    match t
    case Char => Success(UInt8)
    case UChar => Success(UInt8)
    case Short => Success(Int16)
    case UShort => Success(UInt16)
    case Int => Success(Int32)
    case UInt => Success(UInt32)
    case Float => Success(Float32)
    case Double => Success(Float64)
    case NoneType => Failure(UnknownPlyType)
  }

  /** get_ply_dtype: the header token of a dtype, for the eight dtypes the table knows. */
  function GetPlyDtype(d: DType): (r: Result<string, CodecError>)
    ensures r.Success? <==> HasPlyType(d)
    ensures r.Failure? ==> r.error == NoPlyType
  {
    match d
    case UInt8 => Success("uchar")
    case Int8 => Success("char")
    case UInt16 => Success("ushort")
    case Int16 => Success("short")
    case UInt32 => Success("uint")
    case Int32 => Success("int")
    case Float32 => Success("float")
    case Float64 => Success("double")
    case _ => Failure(NoPlyType)
  }

  /**
   * The token get_ply_dtype gives names a PLY type of the dtype's own width,
   * and is a single word of a header line.
   */
  lemma PlyTokenWidth(d: DType)
    requires HasPlyType(d)
    ensures TokenWidth(GetPlyDtype(d).value) == Some(ItemSize(d))
    ensures ' ' !in GetPlyDtype(d).value && '\n' !in GetPlyDtype(d).value && GetPlyDtype(d).value != "list"
  {
  }

  /**
   * get_torch_dtype_size: defined exactly where get_ply_dtype is, giving the
   * element width: 1, 2, 4 or 8 bytes for 8-, 16-, 32- and 64-bit types.
   */
  function GetTorchDtypeSize(d: DType): (r: Result<nat, CodecError>)
    ensures r.Success? <==> GetPlyDtype(d).Success?
    ensures r.Failure? ==> r.error == NoPlyType
    ensures r.Success? ==> r.value == ItemSize(d)
    ensures r.Success? ==> (r.value == 1 <==> d in {UInt8, Int8})
    ensures r.Success? ==> (r.value == 2 <==> d in {UInt16, Int16})
    ensures r.Success? ==> (r.value == 4 <==> d in {UInt32, Int32, Float32})
    ensures r.Success? ==> (r.value == 8 <==> d == Float64)
  {
    match d
    case UInt8 => Success(1)
    case Int8 => Success(1)
    case UInt16 => Success(2)
    case Int16 => Success(2)
    case UInt32 => Success(4)
    case Int32 => Success(4)
    case Float32 => Success(4)
    case Float64 => Success(8)
    case _ => Failure(NoPlyType)
  }

  /**
   * Reading a type and writing it back gives the same header token for every
   * type except char, which comes back as uchar.
   */
  lemma TypeNameRoundTrip(t: PlyPropertyType)
    requires t != NoneType
    ensures GetTorchDtype(t).Success?
    ensures GetPlyDtype(GetTorchDtype(t).value) == Success(if t == Char then "uchar" else PlyName(t))
  {}

  /** Every dtype a PLY reader produces can be written back. */
  lemma ReadTypesAreWritable(t: PlyPropertyType)
    requires t != NoneType
    ensures GetTorchDtype(t).Success?
    ensures GetTorchDtypeSize(GetTorchDtype(t).value) == Success(PlyWidth(t))
  {}
}

/** The exceptions the modelled code raises, without their message texts. */
module Errors {

  /** std::runtime_error and torch errors raised by the native extension (surfaced as RuntimeError). */
  datatype CodecError =
    | UnknownPlyType            // get_torch_dtype: no torch dtype for the PLY tag
    | NoPlyType                 // get_ply_dtype / get_torch_dtype_size: no PLY type for the torch dtype
    | IrregularList             // read_ply_element: list property without one common row count
    | OpenFailed                // read_ply / read_float_ply: reader not valid
    | InvalidPly                // read_float_ply: not exactly one element
    | UnsupportedEncoding       // read_float_ply: not a binary file
    | CannotCreate              // write_float_ply: output not open
    | NotTwoDimensional         // write_float_ply: data.ndimension() != 2
    | ColumnCountMismatch       // write_float_ply: data.size(1) != len(props)
    | NotOnCpu                  // write_float_ply: data not on the CPU
    | NotFloat32                // write_float_ply: dtype is not float32
    | NoDimensions              // tensor.size(0) on a 0-dimensional tensor
    | ListTooLong               // write_ply: list width does not fit the uchar count

  /** Python exceptions raised by the plytorch package. */
  datatype PyError =
    | FileNotFound              // PLYData.load / PLYData.save path checks
    | Runtime(cause: CodecError)
    | Recursion                 // PLYElement.__getitem__ with a single name re-enters itself
    | StackFailed               // torch.stack on no tensors or tensors that do not match
    | UnbindFailed              // Tensor.unbind(-1) on a 0-dimensional tensor
    | MissingRequired           // ValueError: a required field has no value
    | UnknownAttribute          // ValueError: a keyword that is not a field
    | LenOfNone                 // TypeError: len() of None or of a 0-dimensional tensor
}

/**
 * The error kinds of the three crates, without their messages. `Panicked`
 * stands for a Rust panic (an `unwrap` on `None`, a slice index out of
 * range): it is not an error value of the source, it aborts the task.
 */
module TransformerErrors {
  /** `ProgramTransformerError`. */
  datatype TransformerError =
    | StorageReadError
    | StorageWriteError
    | CompressedDataParseError
    | ParsingError
    | DeserializationError
    | NotImplemented
    | SerializationError
    | Panicked
}

module IngesterErrors {
  /** `IngesterError`. */
  datatype IngesterError =
    | StorageReadError
    | StorageWriteError
    | CompressedDataParseError
    | ParsingError
    | DeserializationError
    | NotImplemented
    | SerializationError
    | RpcError
    | Panicked
}

module BlockbusterErrors {
  /** `BlockbusterError`. */
  datatype BlockbusterError =
    | DeserializationError
    | InstructionParsingError
    | Panicked
}

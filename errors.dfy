/** The exceptions the bridge throws, and the provider's own failures that it passes on. */
module Errors {
  import opened Numbers

  datatype Error =
    /** `IllegalStateException`: the React context is not available. */
    | ContextUnavailable
    /** `IllegalArgumentException` from the row decoder, naming the column type code. */
    | UnsupportedColumnType(typeCode: int)
    /** `IllegalArgumentException` from the value encoder, naming the key and the runtime class. */
    | UnsupportedValueType(key: string, typeName: string)
    /** `IllegalArgumentException` for a NaN or infinite number, naming the key and the value. */
    | UnsupportedNumericValue(key: string, value: Float64)
    /** Anything the content provider itself throws (permission, SQL, I/O); passed on unchanged. */
    | ProviderFailure(reason: string)
}

/** Errors and results of both backends. */
module Results {
  datatype Error =
    // writes, either backend
    | InvalidLabel | EmptyQuad | WriterClosed | LoaderClosed | StoreClosed
    // run files and tables
    | KeyTooLarge | UnexpectedEOF | TableOutOfOrder
    // partitioned stores
    | NoPartitions | MissingRouter | EmptyPartitionName | DuplicatePartition | MissingDefault
    | UnknownPartition | CrossPartition | NotPartitioned | DatabaseFailed | NilConnection | Cancelled

  datatype Result<+T> = Ok(value: T) | Err(error: Error)
}

/** The crate-wide error enumeration of src/core/error.rs, together with
    `EntityAlreadyDeleted`, which `Stream::push` returns although error.rs
    does not declare it. Message payloads are kept as plain strings. */
module Errors {
  import opened Ids

  datatype Error =
    | StreamAlreadyExists(stream: string)
    | StreamCreationFailed(reason: string)
    | StorageInitializationFailed(reason: string)
    | StreamDoesNotExist(stream: string)
    | EntityDoesNotExist(id: Id)
    | EntityIdExists(id: Id)
    | EntityAlreadyDeleted(id: Id)
    | FailedToWriteFile(reason: string)
    | FailedToOpenFile(reason: string)
    | FailedToReadFile(reason: string)
    | FailedToReadDir(reason: string)
    | CustomConfigNotFound(path: string)
    | NoStreamSet
    | SerializeFailed(reason: string)
    | DeserializeFailed(reason: string)
}

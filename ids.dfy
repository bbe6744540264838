/** Identifiers of events and entities. In the source an `Id` wraps a random
    version-4 UUID; the model keeps only what the core relies on: equality. */
module Ids {
  type Id(==)
}

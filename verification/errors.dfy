/** The crate-wide error enumeration of src/error.rs. The wrapped library
    errors carry no information the model uses, so each variant is a tag. */
module Errors {

  datatype Error =
    | Http              // reqwest transport failure
    | Serde             // JSON parse failure
    | Bincode           // bincode (de)serialisation failure
    | Io                // file I/O failure
    | Sled              // embedded key-value store failure
    | CacheEntryNotFound
    | Utf8Error
}

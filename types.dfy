/** Values shared by the metadata cache: the records it stores, the
    exceptions its methods can end with, and what the injected loader can
    hand back for a file name. */
module MetadataTypes {

  datatype Option<+T> = None | Some(value: T)

  /** One deserialised metadata record. The cache reads nothing of a record
      except its calling code; every other field is carried along untouched
      and is summarised here by `id`. */
  datatype PhoneMetadata = PhoneMetadata(id: string, countryCode: int)

  /** The Java exceptions that can end a call into the cache. */
  datatype Exception =
    | IOException(detail: string)
    | IllegalStateException(message: string)
    | RuntimeException(message: string, cause: Exception)
    | NullPointerException

  /** How a Java call ends: normally with a value, or by throwing. */
  datatype Outcome<+T> = Returned(value: T) | Threw(exception: Exception)

  /** What reading and deserialising an opened stream yields. */
  datatype ReadOutcome =
    | Complete(records: seq<PhoneMetadata>)
      // the bytes could not be read, so nothing was merged
    | ReadFailed
      // the parser gave up after merging these records
    | ParseFailed(merged: seq<PhoneMetadata>)

  /** What the injected loader produces for one file name. */
  datatype StreamOutcome =
      // the loader returned no stream (null)
    | NoStream
      // wrapping the stream in an object stream threw IOException
    | HeaderError(detail: string)
    | Opened(read: ReadOutcome)

  /** `Map.get`: the value stored under `k`, or nothing. */
  function Get<K, V>(m: map<K, V>, k: K): Option<V>
  {
    if k in m then Some(m[k]) else None
  }

  /** `m'` keeps every entry of `m` unchanged (entries are never replaced). */
  ghost predicate Extends<K, V>(m: map<K, V>, m': map<K, V>)
  {
    forall k :: k in m ==> k in m' && m'[k] == m[k]
  }
}

# Multi-file phone-number metadata cache, modelled in Dafny

This project models `MultiFileMetadataSourceImpl` from the Android port of
libphonenumber. It is the lazy cache that serves phone-number metadata. It
keeps four tables:

- region code → metadata
- non-geographical calling code → metadata
- calling code → alternate formats
- region code → short-number metadata

On a miss, a lookup builds a file name `prefix + "_" + key` and asks an
injected loader for a stream. It deserialises the stream into a collection of
records and writes into its table. Each path has its own error policy:

- The primary paths (region and non-geographical) treat an empty collection
  as fatal, keep the first of several records, and rethrow an `IOException`
  as a `RuntimeException`.
- The auxiliary paths (alternate formats and short numbers) first check a
  membership set. They swallow an `IOException`. Alternate formats are filed
  under each record's own calling code. Short-number records all go under the
  requested region, so the last one wins.

Layout:

- `types.dfy` (`MetadataTypes`): records, Java exceptions, call outcomes, and
  what the loader can answer (no stream, an `IOException` while opening the
  object stream, or an opened stream whose read completes, fails, or fails to
  parse after merging some records).
- `resource_names.dfy` (`ResourceNames`): file-name construction and
  `String.valueOf(int)`, with its inverse and the round trip.
- `collection_loading.dfy` (`CollectionLoading`): `loadMetadataAndCloseInput`,
  the one-argument `loadMetadataFromFile`, and the two auxiliary `for` loops as
  specification functions, with lemmas about what each loop leaves behind.
- `cache_spec.dfy` (`CacheSpec`): each Java method as a step function from the
  four tables to how the call ends, the new tables, and the file names loaded.
- `cache_properties.dfy` (`CacheProperties`): the cache's promises across
  calls and paths.
- `metadata_source.dfy` (`MultiFileSource`): the class itself. It has the four
  map fields, updated in place, and a ghost log `Requests` of every file name
  handed to the loader. Each method is proved to follow its step function.

The loader is a function from file name to `StreamOutcome`, fixed when the
cache is built. The static calling-code table and the two membership sets are
constructor parameters.

Where the code and a natural reading of its design differ, the model follows
the code:

- Alternate-format entries are not write-once. A loaded file is filed under
  its records' own calling codes, so it can replace another code's entry
  (`AlternateFormatsLoadCanReplaceEntry`). Write-once holds when every record
  carries the requested code (`AlternateFormatsWriteOnceForMatchingRecords`).
- A loader that returns no stream raises `IllegalStateException`. The
  auxiliary paths catch only `IOException`, so this is fatal on those paths
  too, not absorbed (`MissingStreamIsFatalOnEveryPath`).
- A calling code absent from the calling-code table makes
  `getMetadataForNonGeographicalRegion` dereference null. It is modelled as a
  `NullPointerException` outcome, not as a precondition.
- `getMetadataForRegion` on the sentinel region `"001"` loads the file for
  calling code 0 into the non-geographical table and answers nothing
  (`SentinelRegionLookup`). The sentinel is never cached, so each such
  lookup loads the file again and replaces the entry for code 0
  (`SentinelRegionLookupReplacesEntry`). It is modelled as written, not
  excluded.

## Model

| member | source | states |
|---|---|---|
| `ResourceNames.ResourceName` | library/src/main/java/io/michaelrocks/libphonenumber/android/MultiFileMetadataSourceImpl.java:165-166 | the file name is the prefix, then `_`, then the key, and decomposes back into them |
| `ResourceNames.ResourceNameInjective` | library/src/main/java/io/michaelrocks/libphonenumber/android/MultiFileMetadataSourceImpl.java:165-166 | under one prefix, two keys give the same file name exactly when they are equal |
| `ResourceNames.DecimalString` | library/src/main/java/io/michaelrocks/libphonenumber/android/MultiFileMetadataSourceImpl.java:166 | `String.valueOf(int)`: non-empty, a leading minus exactly for negative values, digits otherwise |
| `ResourceNames.NatToDecimal` | library/src/main/java/io/michaelrocks/libphonenumber/android/MultiFileMetadataSourceImpl.java:166 | the digits of a natural number are non-empty, all decimal digits, and have no leading zero |
| `ResourceNames.ParseNatInverts` | library/src/main/java/io/michaelrocks/libphonenumber/android/MultiFileMetadataSourceImpl.java:166 | reading the written digits back gives the original natural number |
| `ResourceNames.ParseDecimalInverts` | library/src/main/java/io/michaelrocks/libphonenumber/android/MultiFileMetadataSourceImpl.java:166 | round trip: parsing `String.valueOf(n)` gives `n` for every integer |
| `ResourceNames.CallingCodeNamesDistinct` | library/src/main/java/io/michaelrocks/libphonenumber/android/MultiFileMetadataSourceImpl.java:165-166 | different calling codes name different files under one prefix, and equal codes the same file |
| `CollectionLoading.FetchCollection` | library/src/main/java/io/michaelrocks/libphonenumber/android/MultiFileMetadataSourceImpl.java:213-220 | a collection is returned exactly when a stream was opened; no stream raises `IllegalStateException("missing metadata: " + name)`; an open failure surfaces as `IOException` |
| `CollectionLoading.PutByCountryCodeAt` | library/src/main/java/io/michaelrocks/libphonenumber/android/MultiFileMetadataSourceImpl.java:193-195 | after the alternate-formats loop, a code is present exactly when it was before or some record carries it; it then holds the last record carrying it, otherwise its old entry |
| `CollectionLoading.PutByCountryCodeUniform` | library/src/main/java/io/michaelrocks/libphonenumber/android/MultiFileMetadataSourceImpl.java:193-195 | when all records carry one code, the loop amounts to one `put` of the last record under that code |
| `CollectionLoading.PutAllUnderLastWins` | library/src/main/java/io/michaelrocks/libphonenumber/android/MultiFileMetadataSourceImpl.java:205-207 | the short-number loop amounts to one `put` of the last record under the region, or to nothing for an empty collection |
| `CacheSpec.PrimaryLoad` | library/src/main/java/io/michaelrocks/libphonenumber/android/MultiFileMetadataSourceImpl.java:163-187 | one request for the region's file, or the calling code's file for the sentinel; failure changes nothing and is only `IllegalStateException` or `RuntimeException`; success puts one key in exactly one of the two primary tables |
| `CacheSpec.RegionLookup` | library/src/main/java/io/michaelrocks/libphonenumber/android/MultiFileMetadataSourceImpl.java:107-117 | a cached region is answered with no load and no change; a miss requests exactly its file; a real region changes only its own key in the region table, and a normal return carries the stored metadata |
| `CacheSpec.NonGeographicalLookup` | library/src/main/java/io/michaelrocks/libphonenumber/android/MultiFileMetadataSourceImpl.java:119-134 | a cached code answers with no load; otherwise it loads only when the code maps to the sentinel alone, and else answers nothing (or throws null-dereference for an unknown code) with no change; only this key can be added |
| `CacheSpec.AlternateFormatsLoad` | library/src/main/java/io/michaelrocks/libphonenumber/android/MultiFileMetadataSourceImpl.java:189-199 | requests the code's file; changes only the alternate-formats table; only `IllegalStateException` escapes; every entry is its old value or a record filed under its own code |
| `CacheSpec.AlternateFormatsLookup` | library/src/main/java/io/michaelrocks/libphonenumber/android/MultiFileMetadataSourceImpl.java:136-147 | codes outside the set answer nothing with no load and no change; a cached code answers with no load; a miss requests exactly its file; only `IllegalStateException` escapes, with no change |
| `CacheSpec.ShortNumberLoad` | library/src/main/java/io/michaelrocks/libphonenumber/android/MultiFileMetadataSourceImpl.java:201-211 | requests the region's file; changes at most the requested region's entry; only `IllegalStateException` escapes, with no change |
| `CacheSpec.ShortNumberLookup` | library/src/main/java/io/michaelrocks/libphonenumber/android/MultiFileMetadataSourceImpl.java:149-160 | regions outside the set answer nothing with no load and no change; a cached region answers with no load; a miss requests exactly its file and can add only this key |
| `CacheProperties.RegionMissStoresFirstRecord` | library/src/main/java/io/michaelrocks/libphonenumber/android/MultiFileMetadataSourceImpl.java:165-182 | a region miss loads `filePrefix_region`, stores and returns the first record however many follow, and changes no other table |
| `CacheProperties.RegionMissOnEmptyCollection` | library/src/main/java/io/michaelrocks/libphonenumber/android/MultiFileMetadataSourceImpl.java:170-173 | an empty collection, including one left empty by a swallowed read error, throws `IllegalStateException("empty metadata: …")` with no change, and the next call loads again |
| `CacheProperties.PrimaryIOExceptionIsRethrown` | library/src/main/java/io/michaelrocks/libphonenumber/android/MultiFileMetadataSourceImpl.java:183-186 | an `IOException` in a region lookup becomes a `RuntimeException` carrying it, with no change |
| `CacheProperties.PrimaryLoadRethrowsIOException` | library/src/main/java/io/michaelrocks/libphonenumber/android/MultiFileMetadataSourceImpl.java:183-186 | for every region code and calling code, the sentinel included, an `IOException` becomes `RuntimeException("cannot load/parse metadata: " + name, e)` with no change |
| `CacheProperties.PrimaryLoadRejectsEmptyCollection` | library/src/main/java/io/michaelrocks/libphonenumber/android/MultiFileMetadataSourceImpl.java:170-173 | for every region code and calling code, the sentinel included, an empty collection throws `IllegalStateException("empty metadata: " + name)` with no change |
| `CacheProperties.SwallowedReadErrorIsEmptyMetadata` | library/src/main/java/io/michaelrocks/libphonenumber/android/MultiFileMetadataSourceImpl.java:229-243 | a read error is swallowed into an empty collection, so the primary load reports empty metadata, not the read error |
| `CacheProperties.NonGeographicalMissFailures` | library/src/main/java/io/michaelrocks/libphonenumber/android/MultiFileMetadataSourceImpl.java:164-186 | on a non-geographical miss that loads, an `IOException` becomes a `RuntimeException` and an empty collection throws "empty metadata", with no change |
| `CacheProperties.SentinelRegionLookup` | library/src/main/java/io/michaelrocks/libphonenumber/android/MultiFileMetadataSourceImpl.java:108-116 | looking up region `"001"` loads the file of calling code 0, leaves the region and auxiliary tables alone, answers nothing, and is never cached, so the next lookup loads again |
| `CacheProperties.SentinelRegionLookupReplacesEntry` | library/src/main/java/io/michaelrocks/libphonenumber/android/MultiFileMetadataSourceImpl.java:108-116 | a successful sentinel lookup puts the first record under calling code 0 even when that code already has an entry |
| `CacheProperties.NonGeographicalMissStoresFirstRecord` | library/src/main/java/io/michaelrocks/libphonenumber/android/MultiFileMetadataSourceImpl.java:123-129 | a miss for a code of the non-geographical entity loads `filePrefix_code` and files the first record under that code only |
| `CacheProperties.AlternateFormatsMissFilesByOwnCode` | library/src/main/java/io/michaelrocks/libphonenumber/android/MultiFileMetadataSourceImpl.java:189-195 | an alternate-formats miss files the records by their own codes; the requested code is answered exactly when some record carries it, with the last such record |
| `CacheProperties.ShortNumberMissKeepsLastRecord` | library/src/main/java/io/michaelrocks/libphonenumber/android/MultiFileMetadataSourceImpl.java:201-207 | a short-number miss stores and returns the last record under the requested region, or nothing for an empty collection |
| `CacheProperties.AlternateFormatsIOExceptionIsAbsorbed` | library/src/main/java/io/michaelrocks/libphonenumber/android/MultiFileMetadataSourceImpl.java:196-198 | an `IOException` answers nothing and caches nothing, and the next lookup loads again |
| `CacheProperties.ShortNumberIOExceptionIsAbsorbed` | library/src/main/java/io/michaelrocks/libphonenumber/android/MultiFileMetadataSourceImpl.java:208-210 | an `IOException` answers nothing and caches nothing, and the next lookup loads again |
| `CacheProperties.MissingStreamIsFatalOnEveryPath` | library/src/main/java/io/michaelrocks/libphonenumber/android/MultiFileMetadataSourceImpl.java:214-218 | a loader with no stream makes each of the four lookups throw `IllegalStateException("missing metadata: …")` on a miss, with no change |
| `CacheProperties.AnswersAreStable` | library/src/main/java/io/michaelrocks/libphonenumber/android/MultiFileMetadataSourceImpl.java:107-160 | once any lookup answers with metadata, repeating it answers the same with no load and no change |
| `CacheProperties.LookupsPreserveWellFormed` | library/src/main/java/io/michaelrocks/libphonenumber/android/MultiFileMetadataSourceImpl.java:107-211 | the empty start is well formed and every lookup keeps it so: no sentinel region key, alternate formats under their own codes, short-number keys within the set |
| `CacheProperties.AlternateFormatsAnswerMatchesCode` | library/src/main/java/io/michaelrocks/libphonenumber/android/MultiFileMetadataSourceImpl.java:136-147 | in a well-formed cache an alternate-formats answer carries the requested calling code |
| `CacheProperties.AlternateFormatsLoadCanReplaceEntry` | library/src/main/java/io/michaelrocks/libphonenumber/android/MultiFileMetadataSourceImpl.java:193-195 | a file whose record carries another code replaces that code's cached entry and leaves the requested code absent |
| `CacheProperties.AlternateFormatsWriteOnceForMatchingRecords` | library/src/main/java/io/michaelrocks/libphonenumber/android/MultiFileMetadataSourceImpl.java:189-195 | when every record carries the requested code, the load keeps all old entries, adds only that code, and answers with the last record |
| `MultiFileSource.MultiFileMetadataSourceImpl.constructor` | library/src/main/java/io/michaelrocks/libphonenumber/android/MultiFileMetadataSourceImpl.java:94-100 | the cache starts with the given prefixes and loader, four empty tables, and no loads |
| `MultiFileSource.MultiFileMetadataSourceImpl.WithDefaultPrefixes` | library/src/main/java/io/michaelrocks/libphonenumber/android/MultiFileMetadataSourceImpl.java:103-105 | as the constructor, with the three bundled file prefixes |
| `MultiFileSource.MultiFileMetadataSourceImpl.GetMetadataForRegion` | library/src/main/java/io/michaelrocks/libphonenumber/android/MultiFileMetadataSourceImpl.java:107-117 | result, new tables and loader requests are those of `RegionLookup` |
| `MultiFileSource.MultiFileMetadataSourceImpl.GetMetadataForNonGeographicalRegion` | library/src/main/java/io/michaelrocks/libphonenumber/android/MultiFileMetadataSourceImpl.java:119-134 | result, new tables and loader requests are those of `NonGeographicalLookup` |
| `MultiFileSource.MultiFileMetadataSourceImpl.GetAlternateFormatsForCountry` | library/src/main/java/io/michaelrocks/libphonenumber/android/MultiFileMetadataSourceImpl.java:136-147 | result, new tables and loader requests are those of `AlternateFormatsLookup` |
| `MultiFileSource.MultiFileMetadataSourceImpl.GetShortNumberMetadataForRegion` | library/src/main/java/io/michaelrocks/libphonenumber/android/MultiFileMetadataSourceImpl.java:149-160 | result, new tables and loader requests are those of `ShortNumberLookup` |
| `MultiFileSource.MultiFileMetadataSourceImpl.LoadMetadataFromFile` | library/src/main/java/io/michaelrocks/libphonenumber/android/MultiFileMetadataSourceImpl.java:163-187 | result, new tables and loader requests are those of `PrimaryLoad` |
| `MultiFileSource.MultiFileMetadataSourceImpl.LoadAlternateFormatsMetadataFromFile` | library/src/main/java/io/michaelrocks/libphonenumber/android/MultiFileMetadataSourceImpl.java:189-199 | the `for` loop leaves the table equal to `PutByCountryCode` of the old table and the records; result and requests as `AlternateFormatsLoad` |
| `MultiFileSource.MultiFileMetadataSourceImpl.LoadShortNumberMetadataFromFile` | library/src/main/java/io/michaelrocks/libphonenumber/android/MultiFileMetadataSourceImpl.java:201-211 | the `for` loop leaves the table equal to `PutAllUnder` of the old table; result and requests as `ShortNumberLoad` |
| `MultiFileSource.MultiFileMetadataSourceImpl.LoadMetadataCollection` | library/src/main/java/io/michaelrocks/libphonenumber/android/MultiFileMetadataSourceImpl.java:213-220 | asks the loader for exactly this file name once, and ends as `FetchCollection` |

## Left out

- Synchronization (`synchronized` blocks, `Collections.synchronizedMap`). The methods are modelled sequentially. "At most one load per key" then becomes "load only when the key is absent".
- The loader is a fixed function of the file name. A byte source whose answer changes between calls is not modelled. A retry is shown by the repeated request, not by a different answer.
- Stream plumbing (`ObjectInputStream`, `convertStreamToByteBuffer` and its read loop, closing the stream). It is replaced by the loader's `StreamOutcome`. An error while closing is swallowed by the source and has no effect, so it is not represented.
- Protobuf-nano deserialisation (`mergeFrom`). Its result is an opaque sequence of records, and a record keeps only its calling code and an identifier.
- Logging calls. They have no effect on state or results.
- The contents of `CountryCodeToRegionCodeMap`, `AlternateFormatsCountryCodeSet` and `ShortNumbersRegionCodeSet`. They are constructor parameters.
- Java's 32-bit `int` for calling codes. Codes are unbounded integers. They are only printed, never computed with, so no wrap-around arises.
- The national-number pattern matcher and the phone-number match value type. They are not part of this model.

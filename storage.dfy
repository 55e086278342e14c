/**
 * The vocabulary shared by the cache rules and the persister: Java longs and
 * clock readings, the files of the cache directory, the exceptions that cross
 * the persister's boundary, and the converter it delegates (de)serialisation to.
 */
module Storage {
  import opened Wrappers

  const LONG_MIN: int := -0x8000_0000_0000_0000
  const LONG_MAX: int := 0x7FFF_FFFF_FFFF_FFFF

  /** A Java `long`, such as the expiry window `maxTimeInCacheBeforeExpiry`. */
  type Long = x: int | LONG_MIN <= x <= LONG_MAX

  /** 2^64: the modulus of Java's `long` arithmetic. */
  const LONG_MODULUS: int := 0x1_0000_0000_0000_0000

  type Byte = bv8
  type Bytes = seq<Byte>

  /** A resolved cache file, as `getCacheFile(cacheKey)` returns it. */
  type Path = string

  /**
   * What the file system holds for one existing cache file. `lastModified` is what
   * `File.lastModified()` returns: a `long`, negative for a file dated before the epoch.
   */
  datatype Entry = Entry(lastModified: Long, content: Bytes)

  /** The cache directory: a path is in the map exactly when `File.exists()` holds for it. */
  type Files = map<Path, Entry>

  /** The exceptions the persister raises, catches or wraps. */
  datatype Exn =
    | FileNotFound                 // java.io.FileNotFoundException
    | IoFailure                    // any other java.io.IOException
    | ConversionFailure            // retrofit.converter.ConversionException
    | RuntimeFailure               // any unchecked exception raised by a collaborator
    | CacheLoading(cause: Exn)     // CacheLoadingException wrapping its cause
    | CacheSaving(cause: Exn)      // CacheSavingException wrapping its cause

  /**
   * The Retrofit converter, seen only through its two operations: `toBody` encodes a
   * value into the bytes written to the cache file, `fromBody` decodes a file's bytes
   * into a value, or into null (None), as a converter may do for an empty body.
   * Either may fail with an exception.
   */
  datatype Converter<!V> = Converter(toBody: V -> Result<Bytes, Exn>, fromBody: Bytes -> Result<Option<V>, Exn>)

  /** The converter decodes whatever it encodes back to the value it started from. */
  ghost predicate RoundTrips<V(!new)>(c: Converter<V>) {
    forall v :: c.toBody(v).Ok? ==> c.fromBody(c.toBody(v).value) == Ok(Some(v))
  }

  /**
   * How the file system can interrupt a synchronous write of a cache file:
   * opening the `FileOutputStream` fails (nothing is created or truncated), writing
   * fails after `written` bytes reached the file, or closing the stream fails after
   * every byte was written.
   */
  datatype WriteFault =
    | OpenFails(error: Exn)
    | WriteFails(written: nat, error: Exn)
    | CloseFails(error: Exn)
}

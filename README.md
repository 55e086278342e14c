# RetrofitObjectPersister: a Dafny model of its cache-entry lifecycle

RoboSpice's `RetrofitObjectPersister` caches values of one type on disk. Each cache
key has one file. A value is encoded with a Retrofit `Converter` when saved and decoded
when loaded. This project models how the persister decides what a load returns and
what a save leaves on disk, and proves the properties of that decision.

- **Load** (`loadDataFromCache`). A missing file gives null. So does a file older than
  the expiry window. A window of `0` never expires, and any other window is inclusive.
  A fresh file is read and decoded, and the load returns what the converter returns,
  null included. A file that cannot be opened for reading (it vanished, is a directory, or is unreadable) also gives null.
  Every other read or decode failure becomes a `CacheLoadingException`.
- **Save** (`saveData`, `saveDataToCacheAndReturnData`). The value is encoded. The file
  of the key is truncated and rewritten, and the file gets the current time as its
  date. The input value is returned unchanged. A failure that already is a
  `CacheSavingException` is re-raised as it is. Any other failure is wrapped in a new
  one.
- **Namespace** (`getCachePrefix`): the factory prefix followed by the superclass's prefix.

The model works as follows:
- The cache directory is a map from resolved path to an entry (last-modified time,
  bytes). That map is held by a `FileStore` object, and saves update it in place.
- Clock readings are explicit `now` parameters. They and the files' dates are Java
  `long`s, and the age `now - lastModified` is computed with the wrap-around of
  `long` subtraction (`CacheRules.Age`).
- The converter is a pair of functions, `toBody` and `fromBody`. Either one may fail,
  and `fromBody` may also return null (as a converter may for an empty body).
  Where a lemma needs the round trip, it takes `RoundTrips(converter)` as a hypothesis.
- Failures raised by the file system are explicit parameters. `readFault` is the
  exception, if any, that opening or reading the file raises. `fault` says whether
  opening, writing or closing the output stream fails, and after how many bytes.
- Per path, a reader observes one of three states: ABSENT, FRESH or STALE
  (`CacheRules.StateOf`). A STALE entry reads like an ABSENT one, but the file stays
  on disk. A completed save makes the entry FRESH again for a window of 0 and for
  every window at least as long as the entry's age. A negative window leaves even a
  just-written entry STALE.

Modules: `Wrappers` (Option, Result, Outcome), `Storage` (longs, clock readings,
entries, exceptions, the converter), `CacheRules` (the pure decision logic and its
lemmas), `RetrofitPersistence` (the `FileStore` and `RetrofitObjectPersister` classes).

Two details of the code that the model follows:
- A window of 0 is the never-expires sentinel, so a load returns the value whatever
  its age (`CacheRules.WriteThenLoad`).
- Line 60 reads the file through a `FileReader`, which uses the platform's default
  charset, and re-encodes the text as UTF-8. This is not modelled (see Left out).

## Model

| member | source | states |
|---|---|---|
| `RetrofitPersistence.RetrofitObjectPersister.constructor` | extensions/robospice-retrofit-parent/robospice-retrofit/src/main/java/com/octo/android/robospice/persistence/retrofit/RetrofitObjectPersister.java:36-40 | the new persister keeps the given converter and factory prefix, plus the superclass's configuration |
| `RetrofitPersistence.RetrofitObjectPersister.GetCachePrefix` | extensions/robospice-retrofit-parent/robospice-retrofit/src/main/java/com/octo/android/robospice/persistence/retrofit/RetrofitObjectPersister.java:47-49 | the prefix is exactly the factory prefix followed by the superclass's prefix: the two parts can be read back from it |
| `RetrofitPersistence.FactoryPrefixSeparatesNamespaces` | extensions/robospice-retrofit-parent/robospice-retrofit/src/main/java/com/octo/android/robospice/persistence/retrofit/RetrofitObjectPersister.java:48 | two persisters with the same superclass prefix and different factory prefixes never get the same cache prefix |
| `CacheRules.Age` | extensions/robospice-retrofit-parent/robospice-retrofit/src/main/java/com/octo/android/robospice/persistence/retrofit/RetrofitObjectPersister.java:57 | the time in cache is `now - lastModified` computed as a Java long: the exact difference when it fits in a long, and the difference wrapped modulo 2^64 otherwise |
| `CacheRules.IsFresh` | extensions/robospice-retrofit-parent/robospice-retrofit/src/main/java/com/octo/android/robospice/persistence/retrofit/RetrofitObjectPersister.java:58 | window 0 is fresh whatever the entry's date. For any other window, when the age fits in a long, the entry is fresh iff its age is at most the window |
| `CacheRules.FreshnessBoundary` | extensions/robospice-retrofit-parent/robospice-retrofit/src/main/java/com/octo/android/robospice/persistence/retrofit/RetrofitObjectPersister.java:57-58 | for clock readings whose difference fits in a long: the boundary age is fresh, one millisecond later is stale. A future-dated entry is fresh for every non-negative window. A negative window expires every entry that is not future-dated |
| `CacheRules.StateOf` | extensions/robospice-retrofit-parent/robospice-retrofit/src/main/java/com/octo/android/robospice/persistence/retrofit/RetrofitObjectPersister.java:55-58 | an entry is ABSENT iff no file exists at its path, and FRESH iff the file exists and passes the freshness test |
| `CacheRules.ClassifyLoadFailure` | extensions/robospice-retrofit-parent/robospice-retrofit/src/main/java/com/octo/android/robospice/persistence/retrofit/RetrofitObjectPersister.java:79-86 | a file-not-found failure (a file that cannot be opened for reading), and only that, is swallowed as null. Every other failure is raised as a CacheLoadingException wrapping it |
| `CacheRules.ReadEntry` | extensions/robospice-retrofit-parent/robospice-retrofit/src/main/java/com/octo/android/robospice/persistence/retrofit/RetrofitObjectPersister.java:59-86 | a clean read returns exactly what the converter returns, null included. A read failure other than file-not-found is raised as a CacheLoadingException wrapping that failure. So is a decode failure other than file-not-found. Null comes back iff the failure is file-not-found or the converter returned null. A value comes back only from a clean read |
| `CacheRules.Load` | extensions/robospice-retrofit-parent/robospice-retrofit/src/main/java/com/octo/android/robospice/persistence/retrofit/RetrofitObjectPersister.java:53-93 | an entry that is not FRESH (absent or stale, for every window) gives null and no error, and so does a file-not-found read. For a FRESH entry, a clean read gives exactly what the converter decodes, null included. A read or decode failure other than file-not-found gives a CacheLoadingException wrapping that very failure. Values and errors arise only from fresh existing files |
| `CacheRules.StaleReadsAsAbsent` | extensions/robospice-retrofit-parent/robospice-retrofit/src/main/java/com/octo/android/robospice/persistence/retrofit/RetrofitObjectPersister.java:88-89 | a stale entry loads exactly as if its file were missing |
| `RetrofitPersistence.RetrofitObjectPersister.LoadDataFromCache` | extensions/robospice-retrofit-parent/robospice-retrofit/src/main/java/com/octo/android/robospice/persistence/retrofit/RetrofitObjectPersister.java:53-93 | as a read-only function of the directory, at the key's file: not FRESH gives null, and so does a file-not-found read. FRESH with a clean read gives exactly what the converter returns, null included. Any other read or decode failure gives a CacheLoadingException wrapping that failure. A returned value is always fresh and decoded from the key's file |
| `RetrofitPersistence.RetrofitObjectPersister.ReadCacheDataFromFile` | extensions/robospice-retrofit-parent/robospice-retrofit/src/main/java/com/octo/android/robospice/persistence/retrofit/RetrofitObjectPersister.java:139-141 | always returns null |
| `CacheRules.Written` | extensions/robospice-retrofit-parent/robospice-retrofit/src/main/java/com/octo/android/robospice/persistence/retrofit/RetrofitObjectPersister.java:127-135 | a write touches only its own path. A complete write (also one whose close fails) leaves exactly the encoded bytes dated now. A failed open changes nothing. A failed write leaves a prefix of the bytes dated now |
| `RetrofitPersistence.RetrofitObjectPersister.SaveData` | extensions/robospice-retrofit-parent/robospice-retrofit/src/main/java/com/octo/android/robospice/persistence/retrofit/RetrofitObjectPersister.java:124-136 | an encoding failure is raised before the directory is touched. Otherwise the directory becomes the result of writing the encoded bytes to the key's file, and the write's failure, if any, is raised |
| `CacheRules.WrapSaveFailure` | extensions/robospice-retrofit-parent/robospice-retrofit/src/main/java/com/octo/android/robospice/persistence/retrofit/RetrofitObjectPersister.java:116-119 | the surfaced failure is always a CacheSavingException. It is the original when that already was one, and otherwise a wrapper around it |
| `CacheRules.WrapSaveFailureIdempotent` | extensions/robospice-retrofit-parent/robospice-retrofit/src/main/java/com/octo/android/robospice/persistence/retrofit/RetrofitObjectPersister.java:116-119 | a failure is wrapped at most once |
| `RetrofitPersistence.RetrofitObjectPersister.SaveDataToCacheAndReturnData` | extensions/robospice-retrofit-parent/robospice-retrofit/src/main/java/com/octo/android/robospice/persistence/retrofit/RetrofitObjectPersister.java:96-122 | on success the result is the given data. Asynchronous mode always returns the data. Synchronous mode leaves the directory as SaveData does and raises only CacheSavingExceptions (re-raised or wrapped) |
| `CacheRules.WriteThenLoad` | extensions/robospice-retrofit-parent/robospice-retrofit/src/main/java/com/octo/android/robospice/persistence/retrofit/RetrofitObjectPersister.java:53-93 | after a completed write at time T, with a round-tripping converter, a load at time N returns the value written iff the window is 0 or the age N − T (as a long) ≤ window, and null otherwise |
| `CacheRules.WriteLeavesOtherPaths` | extensions/robospice-retrofit-parent/robospice-retrofit/src/main/java/com/octo/android/robospice/persistence/retrofit/RetrofitObjectPersister.java:129 | a write to one path, failed or not, changes no load at any other path |
| `CacheRules.LastWriteTo` | extensions/robospice-retrofit-parent/robospice-retrofit/src/main/java/com/octo/android/robospice/persistence/retrofit/RetrofitObjectPersister.java:127-130 | finds the position of the last save to a path: no later save goes to that path. It finds none iff no save in the sequence goes to it |
| `CacheRules.LastWriterWins` | extensions/robospice-retrofit-parent/robospice-retrofit/src/main/java/com/octo/android/robospice/persistence/retrofit/RetrofitObjectPersister.java:127-130 | after any sequence of completed saves, a path holds the entry of the last save to it (as `LastWriteTo` locates it). If no save went to it, it holds what it held before |
| `RetrofitPersistence.SaveThenExpire` | extensions/robospice-retrofit-parent/robospice-retrofit/src/main/java/com/octo/android/robospice/persistence/retrofit/RetrofitObjectPersister.java:53-93 | the class's contracts suffice for this scenario: save at 0 with a 1000 ms window, then load. At 500 the value comes back. At 1500 the load gives null and the file is still on disk |
| `RetrofitPersistence.TwoSavesLastWins` | extensions/robospice-retrofit-parent/robospice-retrofit/src/main/java/com/octo/android/robospice/persistence/retrofit/RetrofitObjectPersister.java:113-115 | the class's contracts suffice for this: after two synchronous saves under one key, a never-expires load returns the second value |

## Left out

- The asynchronous branch's thread (lines 99-112) is not modelled. In that mode `SaveDataToCacheAndReturnData` returns the data, and nothing is stated about the directory. When the detached write happens and whether it succeeds cannot be observed by the caller. The thread logs `IOException` and `CacheSavingException` failures; any other exception (for instance an unchecked one from `toBody`) escapes the thread to its uncaught-exception handler. Neither path is modelled.
- `RetrofitPersistence.RetrofitObjectPersister.SaveDataToCacheAndReturnData`: in asynchronous mode its contract is deliberately silent about the directory, for the reason above.
- File I/O is abstracted: streams, `IOUtils.toByteArray` and closing. Whether the store's content is byte-for-byte what was written is left to the file system. The text-mode read of line 60 (platform charset in, UTF-8 out) is treated as returning the stored bytes unchanged. For content that is not valid text in that charset, this is not what the code does.
- Concurrent writers and readers are not modelled. Each operation sees one snapshot of the directory and one clock reading. A file that cannot be opened for reading at line 60 (it vanished after the existence test, is a directory, or is unreadable) is modelled by `readFault` being file-not-found.
- The converter's internals are not modelled: `fromBody`, `toBody`, the `TypedInput` wrapper with its MIME type and length (lines 61-77) and the class token from `getHandledClass`. A converter is any pair of functions.
- The `InFileObjectPersister` superclass is not part of this model. `getCacheFile`, its `getCachePrefix` and `isAsyncSaveEnabled` become the fields `cacheFile`, `basePrefix` and `asyncSaveEnabled`, fixed at construction. The `Application` argument and the handled class are dropped.
- Logging through `Ln` is not modelled. `System.currentTimeMillis()` is replaced by the `now` parameter.
- `CacheRules.LastWriterWins` covers sequences of completed saves only. `CacheRules.Written` and `CacheRules.WriteLeavesOtherPaths` cover failed saves one at a time.
- A write dates its file with the `now` of the save call; the file system's own clock, which really sets the date, is not modelled.

/**
 * RetrofitObjectPersister: caches values of one type in files, one file per cache
 * key, encoding and decoding them with a Retrofit converter. The cache directory
 * is a FileStore object that saves update in place; loads only read it.
 */
module RetrofitPersistence {
  import opened Wrappers
  import opened Storage
  import opened CacheRules

  /** The cache directory on disk, shared by every persister. */
  class FileStore {
    var files: Files

    constructor (files: Files)
      ensures this.files == files
    {
      this.files := files;
    }
  }

  class RetrofitObjectPersister<K, !V> {
    const converter: Converter<V>
    const factoryPrefix: string
    // What the InFileObjectPersister superclass supplies: its own cache prefix, the
    // file a cache key resolves to, and whether saves run on a detached thread.
    const basePrefix: string
    const cacheFile: K -> Path
    const asyncSaveEnabled: bool

    constructor (factoryPrefix: string, converter: Converter<V>,
                 basePrefix: string, cacheFile: K -> Path, asyncSaveEnabled: bool)
      ensures this.factoryPrefix == factoryPrefix && this.converter == converter
      ensures this.basePrefix == basePrefix && this.cacheFile == cacheFile
      ensures this.asyncSaveEnabled == asyncSaveEnabled
    {
      this.converter := converter;
      this.factoryPrefix := factoryPrefix;
      this.basePrefix := basePrefix;
      this.cacheFile := cacheFile;
      this.asyncSaveEnabled := asyncSaveEnabled;
    }

    /** The factory's prefix, followed by the prefix the superclass would use. */
    function GetCachePrefix(): (prefix: string)
      ensures |prefix| == |factoryPrefix| + |basePrefix|
      ensures prefix[..|factoryPrefix|] == factoryPrefix
      ensures prefix[|factoryPrefix|..] == basePrefix
    {
      factoryPrefix + basePrefix
    }

    /**
     * The cached value for `key` if its file exists and is fresh at time `now`, None
     * (Java's null) if the file is missing, stale or cannot be opened for reading,
     * or if the converter decodes it to null, and a CacheLoadingException wrapping
     * the failure when reading or decoding fails otherwise.
     * Loading never changes the cache directory.
     */
    function LoadDataFromCache(store: FileStore, key: K, maxTime: Long, now: Long, readFault: Option<Exn>)
      : (r: Result<Option<V>, Exn>)
      reads store
      ensures StateOf(store.files, cacheFile(key), maxTime, now) != Fresh ==> r == Ok(None)
      ensures readFault == Some(FileNotFound) ==> r == Ok(None)
      ensures r.Ok? && r.value.Some? ==>
        cacheFile(key) in store.files
        && IsFresh(maxTime, now, store.files[cacheFile(key)].lastModified)
        && converter.fromBody(store.files[cacheFile(key)].content) == Ok(r.value)
      ensures cacheFile(key) in store.files && IsFresh(maxTime, now, store.files[cacheFile(key)].lastModified)
              && readFault.None? && converter.fromBody(store.files[cacheFile(key)].content).Ok?
              ==> r == converter.fromBody(store.files[cacheFile(key)].content)
      ensures StateOf(store.files, cacheFile(key), maxTime, now) == Fresh
              && readFault.Some? && !readFault.value.FileNotFound?
              ==> r == Err(CacheLoading(readFault.value))
      ensures StateOf(store.files, cacheFile(key), maxTime, now) == Fresh && readFault.None?
              && converter.fromBody(store.files[cacheFile(key)].content).Err?
              && !converter.fromBody(store.files[cacheFile(key)].content).error.FileNotFound? ==>
        r == Err(CacheLoading(converter.fromBody(store.files[cacheFile(key)].content).error))
      ensures r.Err? ==> r.error.CacheLoading? && !r.error.cause.FileNotFound?
    {
      Load(store.files, cacheFile(key), maxTime, now, converter.fromBody, readFault)
    }

    /**
     * Encodes `data` and writes it to the file of `key`, truncating what was there.
     * `fault` is the failure, if any, that the file system raises while the file is
     * opened, written or closed.
     */
    method SaveData(store: FileStore, data: V, key: K, now: Long, fault: Option<WriteFault>)
      returns (outcome: Outcome<Exn>)
      modifies store
      ensures converter.toBody(data).Err? ==>
        outcome == Fail(converter.toBody(data).error) && store.files == old(store.files)
      ensures converter.toBody(data).Ok? ==>
        store.files == Written(old(store.files), cacheFile(key), now, converter.toBody(data).value, fault)
        && outcome == if fault.None? then Pass else Fail(fault.value.error)
    {
      var body := converter.toBody(data);
      if body.Err? {
        return Fail(body.error);
      }
      var bytes := body.value;
      var path := cacheFile(key);
      if fault.Some? && fault.value.OpenFails? {
        return Fail(fault.value.error);
      }
      // Opening the output stream creates or truncates the file.
      store.files := store.files[path := Entry(now, [])];
      if fault.Some? && fault.value.WriteFails? {
        store.files := store.files[path := Entry(now, bytes[..Min(fault.value.written, |bytes|)])];
        return Fail(fault.value.error);
      }
      store.files := store.files[path := Entry(now, bytes)];
      if fault.Some? {
        return Fail(fault.value.error);
      }
      outcome := Pass;
    }

    /**
     * Saves `data` under `key` and hands `data` back. With asynchronous saving the
     * write runs on a detached thread whose effect and failures the caller never
     * observes (I/O and CacheSavingException failures are logged there, any other
     * exception escapes the thread uncaught); otherwise the write happens before
     * returning and its failure is raised as a CacheSavingException.
     */
    method SaveDataToCacheAndReturnData(store: FileStore, data: V, key: K, now: Long, fault: Option<WriteFault>)
      returns (r: Result<V, Exn>)
      modifies store
      ensures r.Ok? ==> r.value == data
      ensures r.Err? ==> r.error.CacheSaving? && !asyncSaveEnabled
      ensures asyncSaveEnabled ==> r == Ok(data)
      ensures !asyncSaveEnabled ==>
        match converter.toBody(data)
        case Err(e) => r == Err(WrapSaveFailure(e)) && store.files == old(store.files)
        case Ok(bytes) =>
          store.files == Written(old(store.files), cacheFile(key), now, bytes, fault)
          && r == if fault.None? then Ok(data) else Err(WrapSaveFailure(fault.value.error))
    {
      if asyncSaveEnabled {
        // The detached thread's write is not part of this call.
        return Ok(data);
      }
      var outcome := SaveData(store, data, key, now, fault);
      if outcome.Fail? {
        return Err(WrapSaveFailure(outcome.error));
      }
      r := Ok(data);
    }

    /** Reading a single file directly is not supported: the result is always null. */
    function ReadCacheDataFromFile(path: Path): (r: Result<Option<V>, Exn>)
      ensures r == Ok(None)
    {
      Ok(None)
    }
  }

  /**
   * Persisters built by different factories over the same superclass prefix get
   * different cache prefixes.
   */
  lemma FactoryPrefixSeparatesNamespaces<K1, V1, K2, V2>(p: RetrofitObjectPersister<K1, V1>, q: RetrofitObjectPersister<K2, V2>)
    requires p.basePrefix == q.basePrefix && p.factoryPrefix != q.factoryPrefix
    ensures p.GetCachePrefix() != q.GetCachePrefix()
  {
  }

  /**
   * A synchronous save followed by two loads with a one-second window: the value
   * comes back half a second later, is absent one and a half seconds later, and its
   * file is still on disk.
   */
  method SaveThenExpire<K, V(!new)>(p: RetrofitObjectPersister<K, V>, store: FileStore, key: K, data: V)
    returns (early: Result<Option<V>, Exn>, late: Result<Option<V>, Exn>)
    requires !p.asyncSaveEnabled && RoundTrips(p.converter) && p.converter.toBody(data).Ok?
    modifies store
    ensures early == Ok(Some(data)) && late == Ok(None)
    ensures p.cacheFile(key) in store.files
  {
    var saved := p.SaveDataToCacheAndReturnData(store, data, key, 0, None);
    early := p.LoadDataFromCache(store, key, 1000, 500, None);
    late := p.LoadDataFromCache(store, key, 1000, 1500, None);
  }

  /** Two synchronous saves under one key: a load with the never-expires window returns the second value. */
  method TwoSavesLastWins<K, V(!new)>(p: RetrofitObjectPersister<K, V>, store: FileStore, key: K,
                                      first: V, second: V, t1: Long, t2: Long, now: Long)
    returns (r: Result<Option<V>, Exn>)
    requires !p.asyncSaveEnabled && RoundTrips(p.converter)
    requires p.converter.toBody(first).Ok? && p.converter.toBody(second).Ok?
    modifies store
    ensures r == Ok(Some(second))
  {
    var r1 := p.SaveDataToCacheAndReturnData(store, first, key, t1, None);
    var r2 := p.SaveDataToCacheAndReturnData(store, second, key, t2, None);
    r := p.LoadDataFromCache(store, key, 0, now, None);
  }
}

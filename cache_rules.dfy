/**
 * The decision logic of RetrofitObjectPersister, stated on values: how old an
 * entry is, whether it is fresh, what a load returns, what a synchronous write
 * leaves on disk and how failures are classified. Per resolved path an entry is
 * ABSENT, FRESH or STALE; a stale entry reads like an absent one, and a completed
 * write makes it fresh again for a window of 0 and for every window at least as
 * long as the entry's age (a negative window leaves it stale at once).
 */
module CacheRules {
  import opened Wrappers
  import opened Storage

  /**
   * How long the entry has been in the cache at time `now` (negative when the file is
   * dated in the future), computed as Java computes `now - lastModified` on longs:
   * the difference, wrapped around modulo 2^64 when it does not fit in a long.
   */
  function Age(now: Long, lastModified: Long): (age: Long)
    ensures LONG_MIN <= now - lastModified <= LONG_MAX ==> age == now - lastModified
    ensures now - lastModified > LONG_MAX ==> age == now - lastModified - LONG_MODULUS && age < 0
    ensures now - lastModified < LONG_MIN ==> age == now - lastModified + LONG_MODULUS && age >= 0
  {
    var d := now - lastModified;
    if d > LONG_MAX then d - LONG_MODULUS
    else if d < LONG_MIN then d + LONG_MODULUS
    else d
  }

  /** The freshness test: a window of 0 never expires, any other window is inclusive. */
  predicate IsFresh(maxTime: Long, now: Long, lastModified: Long)
    ensures maxTime == 0 ==> IsFresh(maxTime, now, lastModified)
    ensures maxTime != 0 && LONG_MIN <= now - lastModified <= LONG_MAX ==>
      (IsFresh(maxTime, now, lastModified) <==> now - lastModified <= maxTime)
  {
    maxTime == 0 || Age(now, lastModified) <= maxTime
  }

  /**
   * The boundary cases of the freshness test, for clock readings whose difference
   * fits in a long (as it does for any two readings of the same sign).
   */
  lemma FreshnessBoundary(maxTime: Long, now: Long, lastModified: Long)
    requires LONG_MIN <= now - lastModified <= LONG_MAX
    ensures now - lastModified == maxTime ==> IsFresh(maxTime, now, lastModified)
    ensures maxTime != 0 && now - lastModified == maxTime + 1 ==> !IsFresh(maxTime, now, lastModified)
    ensures now < lastModified && 0 <= maxTime ==> IsFresh(maxTime, now, lastModified)
    ensures maxTime < 0 && lastModified <= now ==> !IsFresh(maxTime, now, lastModified)
  {
  }

  /** The per-path state a reader observes. */
  datatype EntryState = Absent | Fresh | Stale

  function StateOf(files: Files, path: Path, maxTime: Long, now: Long): (s: EntryState)
    ensures s == Absent <==> path !in files
    ensures s == Fresh <==> path in files && IsFresh(maxTime, now, files[path].lastModified)
  {
    if path !in files then Absent
    else if IsFresh(maxTime, now, files[path].lastModified) then Fresh
    else Stale
  }

  /**
   * The catch clauses of the load: a file that cannot be opened for reading (missing,
   * a directory, unreadable) means "not cached" (None); every other exception is
   * raised again wrapped in a CacheLoadingException.
   */
  function ClassifyLoadFailure(e: Exn): (raised: Option<Exn>)
    ensures raised.None? <==> e.FileNotFound?
    ensures raised.Some? ==> raised.value == CacheLoading(e)
  {
    if e.FileNotFound? then None else Some(CacheLoading(e))
  }

  /**
   * Reading and decoding an entry already judged fresh. `readFault` is the exception,
   * if any, that opening or reading the file raises.
   */
  function ReadEntry<V>(content: Bytes, fromBody: Bytes -> Result<Option<V>, Exn>, readFault: Option<Exn>)
    : (r: Result<Option<V>, Exn>)
    ensures r.Ok? && r.value.Some? ==> readFault.None? && fromBody(content) == Ok(r.value)
    ensures readFault.None? && fromBody(content).Ok? ==> r == Ok(fromBody(content).value)
    ensures r == Ok(None) <==>
      if readFault.Some? then readFault.value.FileNotFound?
      else fromBody(content) == Ok(None) || (fromBody(content).Err? && fromBody(content).error.FileNotFound?)
    ensures readFault.Some? && !readFault.value.FileNotFound? ==> r == Err(CacheLoading(readFault.value))
    ensures readFault.None? && fromBody(content).Err? && !fromBody(content).error.FileNotFound? ==>
      r == Err(CacheLoading(fromBody(content).error))
    ensures r.Err? ==> r.error.CacheLoading? && !r.error.cause.FileNotFound?
  {
    // The guarded block either decodes a value or throws; the catch clauses follow.
    var attempt := if readFault.Some? then Err(readFault.value) else fromBody(content);
    match attempt
    case Ok(decoded) => Ok(decoded)
    case Err(e) =>
      match ClassifyLoadFailure(e)
      case None => Ok(None)
      case Some(raised) => Err(raised)
  }

  /** What loading the entry at `path` yields: a value, null (None), or an exception. */
  function Load<V>(files: Files, path: Path, maxTime: Long, now: Long,
                   fromBody: Bytes -> Result<Option<V>, Exn>, readFault: Option<Exn>): (r: Result<Option<V>, Exn>)
    ensures StateOf(files, path, maxTime, now) != Fresh ==> r == Ok(None)
    ensures readFault == Some(FileNotFound) ==> r == Ok(None)
    ensures StateOf(files, path, maxTime, now) == Fresh && readFault.None? && fromBody(files[path].content).Ok? ==>
      r == Ok(fromBody(files[path].content).value)
    ensures StateOf(files, path, maxTime, now) == Fresh && readFault.Some? && !readFault.value.FileNotFound? ==>
      r == Err(CacheLoading(readFault.value))
    ensures StateOf(files, path, maxTime, now) == Fresh && readFault.None? && fromBody(files[path].content).Err?
            && !fromBody(files[path].content).error.FileNotFound? ==>
      r == Err(CacheLoading(fromBody(files[path].content).error))
    ensures r.Ok? && r.value.Some? ==>
      path in files && IsFresh(maxTime, now, files[path].lastModified)
      && fromBody(files[path].content) == Ok(r.value)
    ensures r.Err? ==> r.error.CacheLoading? && path in files
  {
    if path !in files then
      Ok(None)
    else if IsFresh(maxTime, now, files[path].lastModified) then
      ReadEntry(files[path].content, fromBody, readFault)
    else
      Ok(None)
  }

  /** A stale entry is observed exactly as if its file were absent. */
  lemma StaleReadsAsAbsent<V>(files: Files, path: Path, maxTime: Long, now: Long,
                              fromBody: Bytes -> Result<Option<V>, Exn>, readFault: Option<Exn>)
    requires StateOf(files, path, maxTime, now) == Stale
    ensures Load(files, path, maxTime, now, fromBody, readFault) == Ok(None)
    ensures Load(files - {path}, path, maxTime, now, fromBody, readFault) == Ok(None)
  {
  }

  function Min(a: nat, b: nat): nat {
    if a <= b then a else b
  }

  /**
   * The cache directory after a synchronous write of `content` to `path` at time
   * `now`, given the fault (if any) that the file system raises along the way. Once
   * the file is opened it is truncated and dated `now`; a failed write leaves
   * the bytes written so far.
   */
  function Written(files: Files, path: Path, now: Long, content: Bytes, fault: Option<WriteFault>)
    : (files': Files)
    ensures files' - {path} == files - {path}
    ensures (fault.None? || fault.value.CloseFails?) ==> path in files' && files'[path] == Entry(now, content)
    ensures fault.Some? && fault.value.OpenFails? ==> files' == files
    ensures fault.Some? && fault.value.WriteFails? ==>
      path in files' && files'[path].lastModified == now && files'[path].content <= content
  {
    match fault
    case Some(OpenFails(_)) => files
    case Some(WriteFails(n, _)) => files[path := Entry(now, content[..Min(n, |content|)])]
    case _ => files[path := Entry(now, content)]
  }

  /**
   * The exception a synchronous save surfaces: a CacheSavingException goes out as it
   * is, anything else is wrapped in a new one.
   */
  function WrapSaveFailure(e: Exn): (r: Exn)
    ensures r.CacheSaving?
    ensures r == e || r == CacheSaving(e)
    ensures e.CacheSaving? ==> r == e
  {
    if e.CacheSaving? then e else CacheSaving(e)
  }

  /** Wrapping is done once: an already wrapped failure is not wrapped again. */
  lemma WrapSaveFailureIdempotent(e: Exn)
    ensures WrapSaveFailure(WrapSaveFailure(e)) == WrapSaveFailure(e)
  {
  }

  /**
   * After a completed write at time `at`, a load at `now` returns the value written
   * exactly when the window is 0 or the entry's age (`now - at` whenever that fits in
   * a long) is within the window, and null otherwise.
   */
  lemma WriteThenLoad<V(!new)>(files: Files, path: Path, at: Long, c: Converter<V>, v: V, maxTime: Long, now: Long)
    requires RoundTrips(c) && c.toBody(v).Ok?
    ensures Load(Written(files, path, at, c.toBody(v).value, None), path, maxTime, now, c.fromBody, None)
            == if maxTime == 0 || Age(now, at) <= maxTime then Ok(Some(v)) else Ok(None)
  {
  }

  /** A write to one path does not change what a load observes at any other path. */
  lemma WriteLeavesOtherPaths<V>(files: Files, path: Path, at: Long, content: Bytes, fault: Option<WriteFault>,
                                 other: Path, maxTime: Long, now: Long,
                                 fromBody: Bytes -> Result<Option<V>, Exn>, readFault: Option<Exn>)
    requires other != path
    ensures Load(Written(files, path, at, content, fault), other, maxTime, now, fromBody, readFault)
            == Load(files, other, maxTime, now, fromBody, readFault)
  {
  }

  /** A synchronous save that completed: `content` was written to `path` at time `at`. */
  datatype Write = Write(path: Path, content: Bytes, at: Long)

  /** The cache directory after a sequence of completed saves, in order. */
  function Replay(files: Files, writes: seq<Write>): Files
  {
    if writes == [] then files
    else
      var w := writes[|writes| - 1];
      Written(Replay(files, writes[..|writes| - 1]), w.path, w.at, w.content, None)
  }

  /** The position of the last save in `writes` that went to `path`, if any. */
  function LastWriteTo(writes: seq<Write>, path: Path): (last: Option<nat>)
    ensures last.None? <==> forall i | 0 <= i < |writes| :: writes[i].path != path
    ensures last.Some? ==>
      last.value < |writes| && writes[last.value].path == path
      && forall j | last.value < j < |writes| :: writes[j].path != path
  {
    if writes == [] then None
    else if writes[|writes| - 1].path == path then Some(|writes| - 1)
    else LastWriteTo(writes[..|writes| - 1], path)
  }

  /** Last writer wins: after any sequence of saves, each path holds what the last save to it wrote, or what it held before if none did. */
  lemma {:induction false} LastWriterWins(files: Files, writes: seq<Write>, path: Path)
    ensures match LastWriteTo(writes, path)
            case Some(k) =>
              path in Replay(files, writes) && Replay(files, writes)[path] == Entry(writes[k].at, writes[k].content)
            case None =>
              (path in Replay(files, writes) <==> path in files)
              && (path in files ==> Replay(files, writes)[path] == files[path])
  {
    if writes != [] {
      var init := writes[..|writes| - 1];
      var w := writes[|writes| - 1];
      LastWriterWins(files, init, path);
      if w.path != path {
        var before := Replay(files, init);
        var after := Replay(files, writes);
        assert after - {w.path} == before - {w.path};
        assert path in after <==> path in after - {w.path};
        assert path in before <==> path in before - {w.path};
        if path in before {
          assert after[path] == (after - {w.path})[path];
        }
      }
    }
  }
}

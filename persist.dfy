/**
 * backend/data/persist.ts: a memo that stores its value through a persistence strategy.
 *
 * `buildCache` keeps one outcome and a `valid` flag. `buildPersisted` puts a read-then-compute-
 * then-write block behind such a cache. It tracks whether the persisted copy can be trusted
 * (`'new' | 'persisted-valid' | 'persisted-invalid'`), and keeps one domain per name in a
 * registry. Every call is sequential here: an outcome is what awaiting the promise gives, `Ok`
 * for a value and `Err` for a rejection. The strategy is an in-memory store, whose entries are
 * the results a read returns. Each write receives the outcome it has (success, store error or
 * serialize error) as a parameter.
 */
module Persist {
  import opened Wrappers
  import opened Strings

  /**
   * The `FileSystemStrategy` constructor's base path: one trailing `'/'` or platform separator
   * is removed, and any other path is kept.
   */
  function TrimBasePath(basePath: string, sep: char): (r: string)
    ensures (EndsWith(basePath, "/") || EndsWith(basePath, [sep])) ==> r + [basePath[|basePath| - 1]] == basePath
    ensures !(EndsWith(basePath, "/") || EndsWith(basePath, [sep])) ==> r == basePath
  {
    if EndsWith(basePath, "/") || EndsWith(basePath, [sep]) then basePath[..|basePath| - 1] else basePath
  }

  /** Only one separator is removed: a path ending in two slashes keeps the first. */
  lemma TrimBasePathOnce(p: string, sep: char)
    ensures TrimBasePath(p + "//", sep) == p + "/"
    ensures '/' !in p && sep !in p && p != [] ==> TrimBasePath(p, sep) == p
  {
    assert (p + "//")[..|p + "//"| - 1] == p + "/";
    if '/' !in p && sep !in p && p != [] {
      assert p[|p| - 1] in p;
      assert p[|p| - 1..] == [p[|p| - 1]];
    }
  }

  // ---------------------------------------------------------------------------------------
  // `buildCache`.

  class CacheDomain<T> {
    var valid: bool
    /** `None` until a value is first stored. */
    var cachedValue: Option<Result<T>>

    ghost predicate Valid()
      reads this
    {
      valid ==> cachedValue.Some?
    }

    /** `buildCache(initialValue)`: valid from the start exactly when an initial value is given. */
    constructor (initialValue: Option<T>)
      ensures Valid()
      ensures valid == initialValue.Some?
      ensures cachedValue == if initialValue.Some? then Some(Ok(initialValue.value)) else None
    {
      valid := initialValue.Some?;
      cachedValue := if initialValue.Some? then Some(Ok(initialValue.value)) else None;
    }

    /**
     * One use of `cached(block)` (the call and its `await`): while invalid, the block runs and its
     * outcome is stored; while valid, the stored outcome, value or rejection, is returned again.
     * `produced` is the outcome the block has if it runs.
     */
    method Cached(produced: Result<T>) returns (r: Result<T>, ran: bool)
      requires Valid()
      modifies this
      ensures Valid() && valid
      ensures ran == !old(valid)
      ensures ran ==> cachedValue == Some(produced) && r == produced
      ensures !ran ==> cachedValue == old(cachedValue) && r == old(cachedValue).value
    {
      ran := !valid;
      if !valid {
        valid := true;
        cachedValue := Some(produced);
      }
      r := cachedValue.value;
    }

    /** `invalidate()`: only the flag is cleared. */
    method Invalidate()
      modifies this
      ensures !valid && cachedValue == old(cachedValue)
    {
      valid := false;
    }
  }

  /** Something done with a cache. */
  datatype CacheEvent<T> = Use(produced: Result<T>) | Invalidation

  /** For each event of a run, whether it ran the block (always false for an invalidation). */
  function CacheRuns<T>(valid: bool, events: seq<CacheEvent<T>>): (ran: seq<bool>)
    ensures |ran| == |events|
    decreases |events|
  {
    if events == [] then []
    else match events[0]
      case Use(_) => [!valid] + CacheRuns(true, events[1..])
      case Invalidation => [false] + CacheRuns(false, events[1..])
  }

  /** A cache built with an initial value never runs a block before it is invalidated. */
  lemma {:induction false} CacheNoRunBeforeInvalidate<T>(events: seq<CacheEvent<T>>, k: nat)
    requires k < |events|
    requires forall j :: 0 <= j <= k ==> events[j].Use?
    ensures !CacheRuns(true, events)[k]
    decreases |events|
  {
    if k > 0 {
      CacheNoRunBeforeInvalidate(events[1..], k - 1);
    }
  }

  /**
   * After an invalidation, the next use runs the block, and the uses after it up to the next
   * invalidation do not.
   */
  lemma {:induction false} CacheRunsOnceAfterInvalidate<T>(valid: bool, events: seq<CacheEvent<T>>, i: nat, k: nat)
    requires i < k < |events|
    requires events[i].Invalidation?
    requires forall j :: i < j <= k ==> events[j].Use?
    ensures CacheRuns(valid, events)[k] <==> k == i + 1
    decreases |events|
  {
    if i > 0 {
      var v' := if events[0].Use? then true else false;
      CacheRunsOnceAfterInvalidate(v', events[1..], i - 1, k - 1);
    } else if k > 1 {
      CacheNoRunBeforeInvalidate(events[2..], k - 2);
    }
  }

  // ---------------------------------------------------------------------------------------
  // The persistence strategy.

  /** What `retrieveData` reports. */
  datatype ReadResult<T> = ReadSuccess(data: T) | NotFound | RetrieveError(error: string) | ParseError(error: string)

  /** What `storeData` reports. */
  datatype WriteResult = WriteSuccess | StoreError(error: string) | SerializeError(error: string)

  function Retrieve<T>(files: map<string, ReadResult<T>>, domain: string): ReadResult<T> {
    if domain in files then files[domain] else NotFound
  }

  /** A strategy over an in-memory store: each domain's entry is what reading it yields. */
  class Store<T> {
    var files: map<string, ReadResult<T>>

    constructor (files: map<string, ReadResult<T>>)
      ensures this.files == files
    {
      this.files := files;
    }

    method RetrieveData(domain: string) returns (r: ReadResult<T>)
      ensures r == Retrieve(files, domain)
    {
      if domain in files {
        r := files[domain];
      } else {
        r := NotFound;
      }
    }

    /** A successful write makes the next read of the domain return the value; a failed one changes nothing. */
    method StoreData(domain: string, obj: T, outcome: WriteResult) returns (r: WriteResult)
      modifies this
      ensures r == outcome
      ensures files == if outcome.WriteSuccess? then old(files)[domain := ReadSuccess(obj)] else old(files)
    {
      if outcome.WriteSuccess? {
        files := files[domain := ReadSuccess(obj)];
      }
      r := outcome;
    }
  }

  // ---------------------------------------------------------------------------------------
  // `buildPersisted`.

  datatype DomainState = New | PersistedValid | PersistedInvalid

  /** The outcome of the block `persisted` hands to the cache, with the state and store it leaves. */
  datatype BlockRun<T> = BlockRun(outcome: Result<T>, state: DomainState, files: map<string, ReadResult<T>>)

  const SerializeFailure: string := "Cannot serialize data to be persisted"

  /**
   * The block of `persisted`: in state new or persisted-valid a successful read is returned as
   * it is; otherwise (or after a not-found, parse or read error) the computation runs, its value
   * is written and the write's result sets the state.
   */
  function Recompute<T>(state: DomainState, files: map<string, ReadResult<T>>, domain: string,
                        computed: Result<T>, write: WriteResult): BlockRun<T>
  {
    if (state.New? || state.PersistedValid?) && Retrieve(files, domain).ReadSuccess? then
      BlockRun(Ok(Retrieve(files, domain).data), state, files)
    else match computed
      case Err(e) => BlockRun(Err(e), state, files)
      case Ok(v) =>
        match write
        case WriteSuccess => BlockRun(Ok(v), PersistedValid, files[domain := ReadSuccess(v)])
        case SerializeError(_) => BlockRun(Err(SerializeFailure), PersistedInvalid, files)
        case StoreError(_) => BlockRun(Ok(v), PersistedInvalid, files)
  }

  /** A successful read in state new or persisted-valid is returned without computing and changes nothing. */
  lemma RecomputeReadHit<T>(state: DomainState, files: map<string, ReadResult<T>>, domain: string,
                            computed: Result<T>, write: WriteResult)
    requires state != PersistedInvalid && domain in files && files[domain].ReadSuccess?
    ensures Recompute(state, files, domain, computed, write) == BlockRun(Ok(files[domain].data), state, files)
  {
  }

  /**
   * Without a usable read the computation decides: its rejection passes through, and otherwise
   * the write's result sets the state; only a serialize error rejects a computed value.
   */
  lemma RecomputeFallsThrough<T>(state: DomainState, files: map<string, ReadResult<T>>, domain: string,
                                 v: T, write: WriteResult)
    requires state == PersistedInvalid || !Retrieve(files, domain).ReadSuccess?
    ensures var run := Recompute(state, files, domain, Ok(v), write);
      && (run.state == PersistedValid <==> write.WriteSuccess?)
      && (run.state == PersistedInvalid <==> !write.WriteSuccess?)
      && (run.outcome == Ok(v) <==> !write.SerializeError?)
      && (write.SerializeError? ==> run.outcome == Err(SerializeFailure))
  {
  }

  /** Once invalidated, the persisted copy is never read: the outcome does not depend on the store. */
  lemma RecomputeIgnoresStoreWhenInvalid<T>(files1: map<string, ReadResult<T>>, files2: map<string, ReadResult<T>>,
                                           domain: string, computed: Result<T>, write: WriteResult)
    ensures Recompute(PersistedInvalid, files1, domain, computed, write).outcome ==
            Recompute(PersistedInvalid, files2, domain, computed, write).outcome
  {
  }

  /**
   * The persistence round trip: after a successful write, a domain of the same name that starts
   * afresh reads the value back without computing.
   */
  lemma RecomputeRoundTrip<T>(state: DomainState, files: map<string, ReadResult<T>>, domain: string,
                              v: T, computed: Result<T>, write: WriteResult)
    requires state == PersistedInvalid || !Retrieve(files, domain).ReadSuccess?
    ensures var run := Recompute(state, files, domain, Ok(v), WriteSuccess);
      Recompute(New, run.files, domain, computed, write) == BlockRun(Ok(v), New, run.files)
  {
  }

  class PersistDomain<T> {
    const name: string
    const store: Store<T>
    const cache: CacheDomain<T>
    var state: DomainState

    constructor (name: string, store: Store<T>)
      ensures this.name == name && this.store == store && state == New
      ensures fresh(cache) && cache.Valid() && !cache.valid && cache.cachedValue == None
    {
      this.name := name;
      this.store := store;
      state := New;
      cache := new CacheDomain(None);
    }

    /** The block handed to `cached`, with its reads and writes. */
    method RunBlock(computed: Result<T>, write: WriteResult) returns (r: Result<T>)
      modifies this, store
      ensures Recompute(old(state), old(store.files), name, computed, write) == BlockRun(r, state, store.files)
    {
      if state == PersistedValid || state == New {
        var readResult := store.RetrieveData(name);
        if readResult.ReadSuccess? {
          return Ok(readResult.data);
        }
      }
      if computed.Err? {
        return Err(computed.error);
      }
      var value := computed.value;
      var writeResult := store.StoreData(name, value, write);
      r := Ok(value);
      match writeResult
      case WriteSuccess =>
        state := PersistedValid;
      case SerializeError(_) =>
        state := PersistedInvalid;
        return Err(SerializeFailure);
      case StoreError(_) =>
        state := PersistedInvalid;
    }

    /**
     * One use of `persisted(block)`; `computed` is the outcome of `block()` and `write` the result
     * the write would have, in case they happen. While the cache is valid nothing runs and the
     * stored outcome is returned.
     */
    method Persisted(computed: Result<T>, write: WriteResult) returns (r: Result<T>)
      requires cache.Valid()
      modifies this, store, cache
      ensures cache.Valid() && cache.valid
      ensures old(cache.valid) ==>
        r == old(cache.cachedValue).value && state == old(state) && store.files == old(store.files) &&
        cache.cachedValue == old(cache.cachedValue)
      ensures !old(cache.valid) ==>
        Recompute(old(state), old(store.files), name, computed, write) == BlockRun(r, state, store.files) &&
        cache.cachedValue == Some(r)
    {
      var produced: Result<T>;
      if !cache.valid {
        produced := RunBlock(computed, write);
      } else {
        produced := cache.cachedValue.value;
      }
      var ran;
      r, ran := cache.Cached(produced);
    }

    /** `invalidate()`: the persisted copy is distrusted and the cache cleared. */
    method Invalidate()
      modifies this, cache
      ensures state == PersistedInvalid && !cache.valid && cache.cachedValue == old(cache.cachedValue)
    {
      state := PersistedInvalid;
      cache.Invalidate();
    }
  }

  /** The module-wide map from domain names to domains. */
  class Registry<T> {
    var domains: map<string, PersistDomain<T>>

    constructor ()
      ensures domains == map[]
    {
      domains := map[];
    }

    ghost function Repr(): set<object>
      reads this
    {
      (set n | n in domains :: domains[n]) + (set n | n in domains :: domains[n].cache) +
      (set n | n in domains :: domains[n].store)
    }

    /** Every domain is registered under its own name and has a cache of its own. */
    ghost predicate Valid()
      reads this, Repr()
    {
      && (forall n :: n in domains ==> domains[n].name == n && domains[n].cache.Valid())
      && (forall a, b :: a in domains && b in domains && a != b ==> domains[a].cache != domains[b].cache)
    }

    /**
     * `buildPersisted(domainName, strategy)`: the domain already registered under the name, whatever
     * strategy is passed now; otherwise a new domain in state new, which is registered.
     */
    method BuildPersisted(domainName: string, strategy: Store<T>) returns (d: PersistDomain<T>)
      requires Valid()
      modifies this
      ensures Valid()
      ensures domainName in old(domains) ==> d == old(domains)[domainName] && domains == old(domains)
      ensures domainName !in old(domains) ==>
        && fresh(d) && fresh(d.cache) && d.state == New && d.store == strategy && !d.cache.valid
        && domains == old(domains)[domainName := d]
      ensures d.name == domainName && domains[domainName] == d
    {
      if domainName in domains {
        return domains[domainName];
      }
      d := new PersistDomain(domainName, strategy);
      domains := domains[domainName := d];
    }

    /**
     * One use of the function `persistedWithDomainArg(retrieve, transformer)` returns, called with
     * `domainName`: the domain is looked up under the transformed name (or the name itself when
     * there is no transformer) and `computed` is the outcome of `retrieve(domainName)`.
     */
    method PersistedWithDomainArg(transformer: Option<string -> string>, domainName: string, strategy: Store<T>,
                                  computed: Result<T>, write: WriteResult)
      returns (r: Result<T>, d: PersistDomain<T>)
      requires Valid()
      modifies this, Repr(), strategy
      ensures Valid()
      ensures d.name == (if transformer.Some? then transformer.value(domainName) else domainName)
      ensures d.name in domains && domains[d.name] == d
      ensures d.cache.valid
      ensures var n := d.name; n in old(domains) ==> d == old(domains)[n] && domains == old(domains)
      ensures var n := d.name; n in old(domains) && old(domains[n].cache.valid) ==>
        && r == old(domains[n].cache.cachedValue).value && d.cache.cachedValue == old(domains[n].cache.cachedValue)
        && d.state == old(domains[n].state) && d.store.files == old(domains[n].store.files)
      ensures var n := d.name; n in old(domains) && !old(domains[n].cache.valid) ==>
        && Recompute(old(domains[n].state), old(domains[n].store.files), n, computed, write) == BlockRun(r, d.state, d.store.files)
        && d.cache.cachedValue == Some(r)
      ensures var n := d.name; n !in old(domains) ==>
        && fresh(d) && d.store == strategy && domains == old(domains)[n := d]
        && Recompute(New, old(strategy.files), n, computed, write) == BlockRun(r, d.state, d.store.files)
        && d.cache.cachedValue == Some(r)
      ensures forall m :: m in old(domains) && m != d.name ==>
        && domains[m] == old(domains[m])
        && domains[m].state == old(domains[m].state)
        && domains[m].cache.valid == old(domains[m].cache.valid)
        && domains[m].cache.cachedValue == old(domains[m].cache.cachedValue)
        && (domains[m].store != d.store ==> domains[m].store.files == old(domains[m].store.files))
    {
      var persistenceDomainName := if transformer.Some? then transformer.value(domainName) else domainName;
      d := BuildPersisted(persistenceDomainName, strategy);
      r := d.Persisted(computed, write);
    }
  }
}

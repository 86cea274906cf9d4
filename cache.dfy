/** The TTL file cache (statusline-rs/src/cache.rs).

    The cache directory is a map from file name to the file's content and
    modification time. Time is counted in nanoseconds, the resolution of
    `SystemTime`, so "older than `ttl` seconds" is compared exactly as the
    source compares `Duration`s. The pure functions `Lookup`, `AfterGet` and
    `AfterSet` say what `get` returns and what `get`/`set` leave behind; the
    class `Cache` performs those updates on its fields. */
module TtlCache {
  import opened Common

  const NanosPerSecond: nat := 1_000_000_000

  /** One file of the cache directory. */
  datatype Entry = Entry(content: string, mtime: int)

  /** The cache directory as seen at one instant. `writable` is false when
      writes into the directory fail (say, it could not be created). */
  datatype Store = Store(files: map<string, Entry>, now: int, writable: bool)

  // --------------------------------------------------------- key_path

  predicate IsSafe(c: char) {
    IsAsciiAlphanumeric(c) || c == '-' || c == '_'
  }

  /** `key_path`: the file name for a key; every character outside letters,
      digits, `-` and `_` becomes `_`. */
  function KeyPath(key: string): (name: string)
    ensures |name| == |key|
    ensures forall i :: 0 <= i < |name| ==> IsSafe(name[i])
    ensures forall i :: 0 <= i < |key| && IsSafe(key[i]) ==> name[i] == key[i]
    ensures forall i :: 0 <= i < |key| && !IsSafe(key[i]) ==> name[i] == '_'
  {
    seq(|key|, i requires 0 <= i < |key| => if IsSafe(key[i]) then key[i] else '_')
  }

  /** Sanitising is idempotent: a file name is already its own key path. */
  lemma KeyPathIdempotent(key: string)
    ensures KeyPath(KeyPath(key)) == KeyPath(key)
  {
    var once := KeyPath(key);
    assert forall i :: 0 <= i < |once| ==> KeyPath(once)[i] == once[i];
  }

  /** Two keys that differ only where both hold disallowed characters share
      one file (the accepted lossiness of the scheme). */
  lemma KeyPathCollides(k1: string, k2: string)
    requires |k1| == |k2|
    requires forall i :: 0 <= i < |k1| ==> k1[i] == k2[i] || (!IsSafe(k1[i]) && !IsSafe(k2[i]))
    ensures KeyPath(k1) == KeyPath(k2)
  {
    assert forall i :: 0 <= i < |k1| ==> KeyPath(k1)[i] == KeyPath(k2)[i];
  }

  /** Conversely, keys that share a file name agree on every allowed
      character other than the filler `_` itself. */
  lemma KeyPathSafePartDetermined(k1: string, k2: string, i: nat)
    requires KeyPath(k1) == KeyPath(k2)
    requires i < |k1| && IsSafe(k1[i]) && k1[i] != '_'
    ensures i < |k2| && k2[i] == k1[i]
  {
    assert KeyPath(k1)[i] == k1[i];
    assert KeyPath(k2)[i] == k1[i];
  }

  // ---------------------------------------------------------- get / set

  /** Age of an entry in nanoseconds, if its mtime is not in the future
      (`duration_since` fails otherwise). */
  function Age(e: Entry, now: int): Option<nat> {
    if e.mtime <= now then Some(now - e.mtime) else None
  }

  predicate IsStale(e: Entry, now: int, ttl: nat) {
    Age(e, now).Some? && Age(e, now).value > ttl * NanosPerSecond
  }

  /** What `get(key, ttl)` returns. The empty file name is the directory
      itself, which cannot be read as a file. */
  function Lookup(st: Store, key: string, ttl: nat): (r: Option<string>)
    ensures r.Some? <==> KeyPath(key) != "" && KeyPath(key) in st.files
                         && Age(st.files[KeyPath(key)], st.now).Some?
                         && !IsStale(st.files[KeyPath(key)], st.now, ttl)
    ensures r.Some? ==> r.value == st.files[KeyPath(key)].content
  {
    var name := KeyPath(key);
    if name == "" || name !in st.files then None
    else
      var e := st.files[name];
      match Age(e, st.now)
      case None => None
      case Some(age) => if age > ttl * NanosPerSecond then None else Some(e.content)
  }

  /** The directory after `get(key, ttl)`: a stale entry is removed, nothing
      else changes. */
  function AfterGet(st: Store, key: string, ttl: nat): (r: Store)
    ensures r.now == st.now && r.writable == st.writable
    ensures r.files.Keys <= st.files.Keys
    ensures forall n :: n in r.files ==> r.files[n] == st.files[n]
  {
    var name := KeyPath(key);
    if name != "" && name in st.files && IsStale(st.files[name], st.now, ttl)
    then st.(files := st.files - {name})
    else st
  }

  /** The directory after `set(key, value)`: the whole file is overwritten
      and stamped with the current time; a failed write changes nothing. */
  function AfterSet(st: Store, key: string, value: string): Store {
    var name := KeyPath(key);
    if st.writable && name != "" then st.(files := st.files[name := Entry(value, st.now)])
    else st
  }

  // ------------------------------------------------------------- lemmas

  /** A missing entry reads as absent. */
  lemma MissingIsAbsent(st: Store, key: string, ttl: nat)
    requires KeyPath(key) !in st.files
    ensures Lookup(st, key, ttl) == None && AfterGet(st, key, ttl) == st
  {
  }

  /** An entry written "in the future" reads as absent and is kept. */
  lemma FutureEntryKept(st: Store, key: string, ttl: nat)
    requires KeyPath(key) in st.files && st.files[KeyPath(key)].mtime > st.now
    ensures Lookup(st, key, ttl) == None
    ensures AfterGet(st, key, ttl) == st
  {
  }

  /** A stale entry reads as absent, is deleted, and every later read, with
      any ttl, is absent too. */
  lemma ExpiredIsRemoved(st: Store, key: string, ttl: nat, laterTtl: nat)
    requires KeyPath(key) != "" && KeyPath(key) in st.files
    requires IsStale(st.files[KeyPath(key)], st.now, ttl)
    ensures Lookup(st, key, ttl) == None
    ensures KeyPath(key) !in AfterGet(st, key, ttl).files
    ensures Lookup(AfterGet(st, key, ttl), key, laterTtl) == None
  {
  }

  /** The comparison is strict: an entry exactly `ttl` seconds old is fresh. */
  lemma AgeEqualToTtlIsFresh(st: Store, key: string, ttl: nat)
    requires KeyPath(key) != "" && KeyPath(key) in st.files
    requires st.files[KeyPath(key)].mtime == st.now - ttl * NanosPerSecond
    ensures Lookup(st, key, ttl) == Some(st.files[KeyPath(key)].content)
    ensures AfterGet(st, key, ttl) == st
  {
  }

  /** `set` then `get` with no time elapsed returns the value written. */
  lemma SetThenGet(st: Store, key: string, value: string, ttl: nat)
    requires st.writable && key != ""
    ensures Lookup(AfterSet(st, key, value), key, ttl) == Some(value)
  {
  }

  /** `set` touches only the file of its key; a key with another file name
      reads exactly as before. */
  lemma SetFrame(st: Store, key: string, value: string, other: string, ttl: nat)
    requires KeyPath(other) != KeyPath(key)
    ensures AfterSet(st, key, value).files.Keys - {KeyPath(key)} == st.files.Keys - {KeyPath(key)}
    ensures forall n :: n in st.files && n != KeyPath(key) ==>
              n in AfterSet(st, key, value).files && AfterSet(st, key, value).files[n] == st.files[n]
    ensures st.writable && KeyPath(key) != "" ==>
              KeyPath(key) in AfterSet(st, key, value).files
              && AfterSet(st, key, value).files[KeyPath(key)] == Entry(value, st.now)
    ensures Lookup(AfterSet(st, key, value), other, ttl) == Lookup(st, other, ttl)
  {
  }

  /** The directory once the wall clock has moved on by `nanos`. */
  function AfterElapse(st: Store, nanos: nat): (r: Store)
    ensures r.files == st.files && r.writable == st.writable
    ensures r.now - st.now == nanos
  {
    st.(now := st.now + nanos)
  }

  /** What `set` wrote still reads back as long as no more than `ttl`
      seconds have passed. */
  lemma SetThenGetWithinTtl(st: Store, key: string, value: string, ttl: nat, nanos: nat)
    requires st.writable && key != ""
    requires nanos <= ttl * NanosPerSecond
    ensures Lookup(AfterElapse(AfterSet(st, key, value), nanos), key, ttl) == Some(value)
  {
  }

  /** Once more than `ttl` seconds have passed, what `set` wrote reads as
      absent and the next `get` deletes it. */
  lemma SetThenStaleAfterTtl(st: Store, key: string, value: string, ttl: nat, nanos: nat)
    requires st.writable && key != ""
    requires nanos > ttl * NanosPerSecond
    ensures Lookup(AfterElapse(AfterSet(st, key, value), nanos), key, ttl) == None
    ensures KeyPath(key) !in AfterGet(AfterElapse(AfterSet(st, key, value), nanos), key, ttl).files
  {
  }

  // -------------------------------------------------------------- class

  /** `Cache`: the directory state plus the clock `get` consults. */
  class Cache {
    var files: map<string, Entry>
    var now: int
    var writable: bool

    function State(): Store
      reads this
    {
      Store(files, now, writable)
    }

    /** `Cache::new`: the directory exists afterwards if it could be created
        (`writable`), holding what earlier runs left in it. */
    constructor (existing: map<string, Entry>, clock: int, dirUsable: bool)
      ensures State() == Store(existing, clock, dirUsable)
    {
      files := existing;
      now := clock;
      writable := dirUsable;
    }

    /** The wall clock moving on between calls. */
    method Elapse(nanos: nat)
      modifies this`now
      ensures State() == AfterElapse(old(State()), nanos)
    {
      now := now + nanos;
    }

    method Get(key: string, ttl: nat) returns (r: Option<string>)
      modifies this`files
      ensures r == Lookup(old(State()), key, ttl)
      ensures State() == AfterGet(old(State()), key, ttl)
    {
      var name := KeyPath(key);
      if name == "" || name !in files {
        return None;
      }
      var e := files[name];
      if e.mtime > now {
        return None;
      }
      var age := now - e.mtime;
      if age > ttl * NanosPerSecond {
        files := files - {name};
        return None;
      }
      r := Some(e.content);
    }

    method Set(key: string, value: string)
      modifies this`files
      ensures State() == AfterSet(old(State()), key, value)
    {
      var name := KeyPath(key);
      if writable && name != "" {
        files := files[name := Entry(value, now)];
      }
    }
  }
}

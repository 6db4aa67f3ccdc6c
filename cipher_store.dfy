/**
 * The browser's copy of the user's encryption passphrase
 * (`frontend/src/lib/cipher.js`): a module-level cache in front of one
 * `localStorage` entry. Outside a browser there is no storage and only the
 * cache is used.
 */
module CipherStore {
  import opened Wrappers
  import opened Text
  import opened JsValues

  const StorageKey: string := "expenseowl_cipher"

  /** A passphrase as both functions keep it: trimmed, and null when that leaves nothing. */
  function NonBlank(value: string): (r: Option<string>)
    ensures r.Some? <==> !IsBlank(value)
    ensures r.Some? ==> r.value == TrimSpace(value) && r.value != "" && TrimSpace(r.value) == r.value
  {
    TrimSpaceBlank(value);
    TrimSpaceIdempotent(value);
    var trimmed := TrimSpace(value);
    if |trimmed| == 0 then None else Some(trimmed)
  }

  /** What `loadFromStorage` makes of the stored entry: its trimmed value, or null when missing or blank. */
  function StoredCipher(storage: map<string, string>): (r: Option<string>)
    ensures r.Some? <==> StorageKey in storage && !IsBlank(storage[StorageKey])
    ensures r.Some? ==> r == NonBlank(storage[StorageKey])
  {
    if StorageKey in storage then NonBlank(storage[StorageKey]) else None
  }

  /** What `setCipher` caches: the trimmed string, null for a blank string or a value that is not a string. */
  function CipherValue(cipher: Js): (r: Option<string>)
    ensures r.Some? <==> cipher.JsString? && !IsBlank(cipher.s)
    ensures r.Some? ==> r == NonBlank(cipher.s)
  {
    if cipher.JsString? then NonBlank(cipher.s) else None
  }

  class CipherCache {
    /** `isBrowser()`: whether `window.localStorage` exists. */
    const browser: bool
    /** `cachedCipher`. */
    var cached: Option<string>
    /** The page's `localStorage`. */
    var storage: map<string, string>

    /**
     * A cached passphrase is non-empty and trimmed, and in a browser it is
     * what the stored entry trims to.
     */
    predicate Coherent()
      reads this
    {
      cached.Some? ==> cached.value != "" && TrimSpace(cached.value) == cached.value &&
                       (browser ==> StorageKey in storage && TrimSpace(storage[StorageKey]) == cached.value)
    }

    /** A page load: nothing cached yet, whatever the storage holds. */
    constructor (browser: bool, storage: map<string, string>)
      ensures this.browser == browser && this.storage == storage && cached == None
      ensures Coherent()
    {
      this.browser := browser;
      this.storage := storage;
      cached := None;
    }

    /** `loadFromStorage`: only when nothing is cached and there is a storage. */
    method LoadFromStorage()
      requires Coherent()
      modifies this
      ensures Coherent() && storage == old(storage)
      ensures old(cached).Some? || !browser ==> cached == old(cached)
      ensures old(cached).None? && browser ==> cached == StoredCipher(storage)
    {
      if cached.Some? {
        return;
      }
      if !browser {
        return;
      }
      cached := StoredCipher(storage);
    }

    /** `getCipher`: the cached passphrase, read from storage first when none is cached. */
    method GetCipher() returns (r: Option<string>)
      requires Coherent()
      modifies this
      ensures Coherent() && storage == old(storage) && r == cached
      ensures old(cached).Some? ==> r == old(cached)
      ensures old(cached).None? ==> r == (if browser then StoredCipher(storage) else None)
    {
      LoadFromStorage();
      r := cached;
    }

    /** `setCipher`: caches the trimmed passphrase and stores it, or forgets it when blank. */
    method SetCipher(cipher: Js)
      requires Coherent()
      modifies this
      ensures Coherent()
      ensures cached == CipherValue(cipher)
      ensures !browser ==> storage == old(storage)
      ensures browser && cached.Some? ==> storage == old(storage)[StorageKey := cached.value]
      ensures browser && cached.None? ==> storage == old(storage) - {StorageKey}
    {
      cached := CipherValue(cipher);
      if !browser {
        return;
      }
      if cached.Some? {
        storage := storage[StorageKey := cached.value];
      } else {
        storage := storage - {StorageKey};
      }
    }

    /** `clearCipher`: forgets the passphrase in the cache and in storage. */
    method ClearCipher()
      requires Coherent()
      modifies this
      ensures Coherent() && cached == None
      ensures storage == if browser then old(storage) - {StorageKey} else old(storage)
    {
      cached := None;
      if browser {
        storage := storage - {StorageKey};
      }
    }

    /** After `setCipher(s)`, `getCipher()` gives the trimmed `s`, or null when that is blank. */
    method SetThenGet(cipher: Js) returns (r: Option<string>)
      requires Coherent()
      modifies this
      ensures Coherent()
      ensures r == CipherValue(cipher)
      ensures browser ==> (StorageKey in storage <==> r.Some?)
    {
      SetCipher(cipher);
      r := GetCipher();
    }

    /** After `clearCipher()`, `getCipher()` gives null, in a browser as outside one. */
    method ClearThenGet() returns (r: Option<string>)
      requires Coherent()
      modifies this
      ensures Coherent() && r == None
    {
      ClearCipher();
      r := GetCipher();
    }
  }
}

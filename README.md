# In-memory key-value store over HTTP: a Dafny model

The server keeps one `HashMap<String, String>` inside `AppState`, shared by
three HTTP handlers: `kv_get` (GET `/{key}`), `kv_set` (POST `/{key}`, body =
value) and `list_keys` (GET `/keys`). Requests pass a load-shedding layer and a
10-second timeout layer; any failure those layers raise is translated by
`handle_error` into a status code and a message.

This project models:

- `Store.AppState` — the shared state as a class whose field `db` is a
  `map<string, string>`. `Get` is the read-only lookup, `Set` is
  `HashMap::insert` (adds or overwrites), and `List` is the listing loop. The
  loop picks the next key arbitrarily (`:|`) because the map's iteration order
  is unspecified. It returns the order it took as a ghost result.
- `Store.Lookup` — the value-level meaning of `kv_get`, which the lemmas about
  read-your-write, last-write-wins and the frame of `kv_set` are stated over.
- `Listing` — what the listing is for a given enumeration (`Render`), its size
  as an order-independent sum over entries (`SizeOf`, `ListingSize`), and the
  lemmas that connect the two. `InsertStr` models `String::insert_str`, which
  the loop calls at index `s.len()`.
- `Errors` — `handle_error` over a closed set of failure kinds
  (`Elapsed | Overloaded | Other(detail)`). `ErrorOfResponse` is its inverse
  and is used to prove that no two failures get the same response.
- `Http` — the four status codes the core uses (sections 15.5.5, 15.5.9, 15.6.1
  and 15.6.4 of RFC 9110) and Rust's `Result`/`Option`.

The error kinds are a closed datatype, so a failure is exactly one kind. The
source tests `Elapsed` before `Overloaded`, but that order cannot change the
outcome, and the model keeps the same order anyway.

## Model

| member | source | states |
|---|---|---|
| Store.Lookup | src/main.rs:55-62 | the answer is `Ok` exactly when the key is present, carries the stored value, and is `Err(NOT_FOUND)` otherwise |
| Store.AppState.constructor | src/main.rs:47-50 | `AppState::default()` starts with an empty map |
| Store.AppState.Get | src/main.rs:52-63 | `kv_get` answers `Lookup(db, key)` and changes nothing (no `modifies`) |
| Store.AppState.Set | src/main.rs:65-67 | `kv_set` leaves `db` equal to the old map updated at `key`: the key set becomes the old keys plus `key`, `key` now reads `Ok(value)` (read-your-write), every other key reads as before |
| Store.AppState.List | src/main.rs:69-78 | `list_keys` changes nothing; its result is `Render` over an order that visits every key exactly once; its length is the sum of key and value lengths over all entries; the empty store lists as `""` |
| Store.LastWriteWins | src/main.rs:66 | two writes to one key equal the second write alone, and the lookup reads the second value |
| Store.SetSize | src/main.rs:66 | a write to `k` grows the store by one entry exactly when `k` was new, and keeps its size when it overwrites |
| Store.ListingContainsEntries | src/main.rs:73-76 | for any enumeration, every entry occurs in the listing as its key immediately followed by its value |
| Listing.InsertStr | src/main.rs:74-75 | `insert_str(idx, t)` keeps the prefix before `idx`, places `t` at `idx`, and shifts the rest after it |
| Listing.InsertStrAtEnd | src/main.rs:74-75 | inserting at `s.len()` is appending |
| Listing.SizeOfRemove | src/main.rs:73-76 | the sum of entry sizes does not depend on which entry is taken first |
| Listing.RenderAppend | src/main.rs:73-76 | listing one enumeration then another equals listing their concatenation (the loop's step) |
| Listing.RenderLength | src/main.rs:73-76 | for an enumeration without repeats, the listing's length is the sum of key and value lengths over the visited keys |
| Listing.EnumerationLength | src/main.rs:69-77 | whatever the enumeration of all keys, the listing's length is `ListingSize(db)` |
| Listing.EntryOccurs | src/main.rs:73-76 | a present entry's key followed by its value is a substring of the listing |
| Listing.EmptyListing | src/main.rs:71 | with no keys the listing is the empty string it started as |
| Listing.ListingIsAmbiguous | src/main.rs:74-75 | with no delimiter, two different stores (`{"a":"bc"}`, `{"ab":"c"}`) list as the same `"abc"` |
| Errors.HandleError | src/main.rs:80-96 | status 408 exactly for `Elapsed`, 503 exactly for `Overloaded`, 500 exactly for any other failure, and nothing else; `Elapsed` gives (408, `"request timed out"`), `Overloaded` gives (503, `"service is overloaded, try again later"`), and the 500 body is `"Unhandled internal error: "` followed by the failure's text |
| Errors.ErrorOfResponse | src/main.rs:80-96 | reads a classifier response back into a failure; it recognises only the three statuses the classifier emits |
| Errors.HandleErrorRoundTrip | src/main.rs:80-96 | reading back `handle_error`'s response gives the original failure kind and, for an unclassified failure, its display text |
| Errors.HandleErrorInjective | src/main.rs:80-96 | distinct failure kinds, or unclassified failures with distinct display texts, get distinct responses, so the three outcomes are mutually exclusive |

## Left out

- `main` (src/main.rs:18-43): building the router, binding 127.0.0.1:3001 and serving. This is network I/O and framework wiring.
- `Arc<RwLock<..>>` (src/main.rs:45) and the readers-or-one-writer discipline: concurrency is not modelled. Each handler is one atomic step on the map. A poisoned lock (`unwrap` panics) is not modelled either.
- The `load_shed()` and `timeout(10 s)` layers (src/main.rs:32-35): their admission counter and deadline are library internals. Only their outcomes are modelled, as `Elapsed` and `Overloaded` inputs to `HandleError`.
- Run-time downcasting with `error.is::<T>()`: replaced by the closed datatype `BoxError`. The `{error}` display text is an opaque `detail` string.
- Errors.HandleErrorRoundTrip: an unclassified failure is identified only by its display text, so two different boxed errors with the same text are one `Other` value here; the source gives them the same 500 response, and the round trip and injectivity hold only up to that text.
- Axum extractors (`Path`, `State`, body as `String`), the rendering of `kv_set`'s unit result as 200 and of `kv_get`'s `Err(NOT_FOUND)` as a 404 response. Requests arrive already parsed into key and value.
- The concrete `HashMap` iteration order: the listing is stated for an arbitrary enumeration.
- Strings are sequences of characters. `insert_str` takes a byte index and panics off a character boundary; the model indexes characters, and the loop only inserts at the end, where both agree.
- The unused `uuid` import (src/main.rs:15).

# dnsruby response cache, modelled in Dafny

This project models the response cache of the dnsruby resolver
(`lib/Dnsruby/Cache.rb`). The cache is one hash from a canonical question
string ("name class type") to a `CacheData`. A `CacheData` holds a stored
answer message, the second it was stored, and an expiration second.

- `Cache.add` files a message under the key of its first question. It
  overwrites any earlier entry under that key.
- `Cache.find` expires entries lazily. An absent key misses. An entry whose
  expiration is at or before now is removed and missed. A fresh entry is
  returned as a "fixed-up" copy.
- The fix-up (`CacheData#message`) builds a new message for the stored
  question with AA clear (the authoritative-answer bit, section 4.1.1 of
  RFC 1035). It copies every record section by section. On the way it
  lowers every stored rrset TTL (section 3.2.1 of RFC 1035) by the whole
  seconds since storing. That change is made in place, so each retrieval
  lowers the stored TTLs again.
- `CacheData#get_expiration` scans for the least rrset TTL, starting from
  the sentinel 9999999. If nothing is below the sentinel, the expiration is
  the absolute second 0, which means "already expired".
- `Cache.delete` hands the hash a `CacheKey` object instead of its string,
  so it never removes anything.

Files and modules:

- `dns_message.dfy`, module `DnsMessage`: the message values the cache
  touches. These are question entries, the AA bit, and sections of rrsets,
  each rrset with a TTL, its records and an OPT flag. It also has the
  flattening of a section into its records.
- `cache_key.dfy`, module `CacheKeys`: `CacheKey` construction and its
  string. It also has the splitting of that string back into its three
  fields.
- `cache_data.dfy`, module `CacheEntry`: the expiration scan, the TTL
  fix-up, and the `CacheData` class. The scan and the fix-up are methods
  with loops, each proved against a specification function.
- `cache.dfy`, module `DnsCache`: the `Cache` class, which holds the hash as
  a map to `CacheData` objects. Its ghost field `contents` is the same hash
  by value (`Store`). The store transitions `Added` and `Lookup` are
  functions on `Store`, and the properties that span several calls are
  lemmas about them.

Collaborators outside the cache are parameters:

- The clock (`Time.now`) is an integer `now`, in seconds.
- The text forms of names, classes and types (`Name#inspect`, `to_s`) are
  the function fields of a `Renderer`. The model assumes nothing about the
  name's text; the lemmas that split a key string assume only that the class
  and type texts contain no space.

Two behaviours of the code are easy to miss:

- An answer with no TTL below the sentinel gets expiration 0
  (`lib/Dnsruby/Cache.rb` lines 98-100), so the first `find` of it removes it.
- `delete` removes nothing (lines 43-44; see Findings).

## Model

| member | source | states |
|---|---|---|
| `CacheKeys.NewKey` | lib/Dnsruby/Cache.rb:48-60 | a key's name is the given name made absolute; its type is the given type; its class is the given class, or IN when none is given |
| `CacheKeys.KeyFields` | lib/Dnsruby/Cache.rb:61-63 | when the class and type texts contain no space, splitting the key string at its last two spaces gives back exactly the rendered name (whatever text it is), class and type, in that order |
| `CacheKeys.KeyTextInjective` | lib/Dnsruby/Cache.rb:61-63 | when the class and type texts contain no space, two keys give the same string if and only if their names, classes and types render the same |
| `CacheKeys.AddFindAgree` | lib/Dnsruby/Cache.rb:22-31 | `add` and `find` build the same key string for the same (name, type, class); `find` without a class uses the same string as class IN |
| `CacheEntry.GetExpiration` | lib/Dnsruby/Cache.rb:88-102 | the nested minimum scan over the non-OPT rrsets returns `ExpirationAt(m, now)`: 0 if the running minimum is still the sentinel 9999999, else `now` plus the minimum |
| `CacheEntry.ExpirationCases` | lib/Dnsruby/Cache.rb:88-102 | if some non-OPT rrset has a TTL below 9999999, the expiration is `now` plus a visited TTL that no visited TTL is below; otherwise (no rrsets, only OPT, or all TTLs at least 9999999) it is 0 |
| `CacheEntry.NewEntryExpiry` | lib/Dnsruby/Cache.rb:103-107 | a new entry with a TTL below the sentinel is fresh at its store second (a lookup in that same second hits) if and only if every non-OPT TTL is positive; without one its expiration is 0 |
| `CacheEntry.CacheData.constructor` | lib/Dnsruby/Cache.rb:103-107 | a new CacheData stores the message, records `now` as its store time, and takes the expiration of the scan |
| `CacheEntry.CacheData.SetMessage` | lib/Dnsruby/Cache.rb:67-70 | `message=` replaces the stored message and recomputes the expiration at `now`, leaving the store time as it was |
| `CacheEntry.AppendRecords` | lib/Dnsruby/Cache.rb:81-83 | the innermost loop appends each record of an rrset, in order, as its own record with the rrset's TTL |
| `CacheEntry.FixSection` | lib/Dnsruby/Cache.rb:79-84 | one section's loop yields the section with every rrset TTL lowered by the offset, and the reply section holding those records in order |
| `CacheEntry.FixUp` | lib/Dnsruby/Cache.rb:72-86 | the fix-up loops yield the stored message with every rrset TTL lowered by the offset, unclamped, and the reply for the stored first question with AA clear built from it |
| `CacheEntry.CacheData.FixedUpMessage` | lib/Dnsruby/Cache.rb:71-87 | `message` lowers the stored TTLs in place by `now` minus the store time, keeps expiration and store time, and returns the reply built from the lowered message |
| `CacheEntry.UnpackRecords` | lib/Dnsruby/Cache.rb:81-83 | appending records one by one keeps every record of the section, in order, and nothing else; each appended rrset holds one record |
| `CacheEntry.DecRRsetsRecords` | lib/Dnsruby/Cache.rb:80 | lowering the rrset TTLs lowers each record's TTL by the same amount and changes no record and no OPT flag |
| `CacheEntry.ReplyContents` | lib/Dnsruby/Cache.rb:72-85 | the reply has exactly the stored first question and AA false; each of its sections holds exactly the stored section's records, in stored rrset order, with TTLs lowered by the offset |
| `CacheEntry.DecrementTwice` | lib/Dnsruby/Cache.rb:76-80 | lowering by one offset and then another equals lowering by their sum, which is why repeated retrievals accumulate |
| `CacheEntry.DecrementZero` | lib/Dnsruby/Cache.rb:76-80 | a retrieval in the second of storing leaves the stored message unchanged |
| `DnsCache.Added` | lib/Dnsruby/Cache.rb:20-25 | after `add(m)` the key of `m`'s first question maps to the new entry for `m`; every other key is present exactly when it was before, with the same entry |
| `DnsCache.FindAbsent` | lib/Dnsruby/Cache.rb:32-35 | a lookup of an absent key returns nil and leaves the hash unchanged |
| `DnsCache.FindExpired` | lib/Dnsruby/Cache.rb:36-39 | a lookup of an entry whose expiration is at or before `now` returns nil and removes exactly that key |
| `DnsCache.FindFresh` | lib/Dnsruby/Cache.rb:40 | a lookup of a fresh entry returns a message with the stored first question, AA false and, per section, every stored record in order with its TTL lowered by the seconds since storing; the stored TTLs drop by the same amount and nothing else changes |
| `DnsCache.RepeatedFindsAccumulate` | lib/Dnsruby/Cache.rb:76-80 | after two fresh lookups at `t1` and `t2`, the stored TTLs and the second reply's TTLs are the originals less `(t1 - stored) + (t2 - stored)` |
| `DnsCache.AddThenFind` | lib/Dnsruby/Cache.rb:20-40 | adding a message with some non-OPT TTL below 9999999 and all non-OPT TTLs positive, and finding its question in the same second returns its question and all its records with unchanged TTLs |
| `DnsCache.AddedFreshUntilMinTtl` | lib/Dnsruby/Cache.rb:36-40 | an added message with some non-OPT TTL below 9999999 is returned exactly while `now` is before its store second plus every non-OPT TTL; once missed, its key is gone |
| `DnsCache.NoShortTtlNeverReturned` | lib/Dnsruby/Cache.rb:98-100 | an added message with no TTL below the sentinel is never returned at a non-negative second, and the first lookup removes it |
| `DnsCache.FilingPreserved` | lib/Dnsruby/Cache.rb:2-4 | `add` and `find` keep every entry under the key of its own first question |
| `DnsCache.LastWriteWins` | lib/Dnsruby/Cache.rb:24 | a second `add` under the same key replaces the first; the entry carries the second message's expiration |
| `DnsCache.Cache.constructor` | lib/Dnsruby/Cache.rb:16 | the cache starts with an empty hash |
| `DnsCache.Cache.Add` | lib/Dnsruby/Cache.rb:20-25 | the hash's value afterwards is `Added` of its value before; every CacheData it holds afterwards was held before or is new |
| `DnsCache.Cache.Find` | lib/Dnsruby/Cache.rb:28-41 | the result and the hash's value afterwards are those of `Lookup` under the key `find` builds; it files no CacheData it did not hold before |
| `DnsCache.Cache.Retrieve` | lib/Dnsruby/Cache.rb:40 | the hit branch rewrites only the found CacheData: its value becomes the retrieved entry; the reply is built from the lowered stored message |
| `DnsCache.Cache.Delete` | lib/Dnsruby/Cache.rb:42-45 | `delete` returns nil and leaves the hash exactly as it was |
| `DnsCache.Cache.DeleteByText` | lib/Dnsruby/Cache.rb:42-45 | the intended `delete` removes exactly the entry under the string `find` builds, and returns it if there was one |
| `DnsCache.DeletedThenMissed` | lib/Dnsruby/Cache.rb:32-35 | after the intended delete, a lookup of that question misses and changes nothing |

## Left out

- Name parsing is not modelled: `Name.create` on a string, and its failure on a malformed name. Names, types and classes reach the model as values. `Name.create` on a `Name` value passes it through.
- `Name#inspect`, `Types.new`, `Classes.new` and their `to_s` forms are uninterpreted `Renderer` fields. No case folding or other normalisation is claimed for them. `KeyFields` and `KeyTextInjective` assume class and type texts without spaces; the name's text may hold any characters.
- `Message.new`, `add_<section>`, `section_rrsets(true)` and `each_section` are not modelled. One list of sections stands for them, and an OPT flag on each rrset stands for the difference between the two accessors. The expiration scan skips OPT; the fix-up includes it.
- The message library regroups records into rrsets in the reply. The model does not: each appended record is its own one-record rrset carrying its TTL.
- Header fields of the reply other than AA, such as ID, RD and RCODE, are not modelled. They keep `Message.new` defaults, and the resolver stamps its own.
- Record contents other than the TTL are carried as opaque values.
- `Time.now` is a parameter. The two clock reads in `find` and `message` are collapsed into one `now`, and so are the two in `initialize` and `get_expiration`.
- Concurrency: the unsynchronised class-level `@@cache`, and `require 'singleton'`. The model holds the hash in one `Cache` instance.
- `Cache.cache`, the accessor returning the hash, is not modelled. `Cache.contents` plays its part.
- `CacheData#to_s`: message pretty-printing.
- `DnsCache.Cache.Add`: the model passes messages by value. The source stores the caller's own message object (lines 23 and 69), and the fix-up lowers that object's TTLs in place (line 80). A caller that keeps the message it added therefore sees its TTLs drop at every later fresh `find`; the model does not capture that sharing.
- `CacheEntry.CacheData.FixedUpMessage`: the source appends the stored record objects themselves to the reply (lines 81-82), so the TTLs in an earlier reply drop again at the next retrieval. The model's replies are values, so a reply already returned never changes.
- `DnsCache.Cache.Add`: does not return the stored CacheData, which the Ruby assignment expression yields.
- `CacheKeys.NewKey`: `CacheKey.new` with fewer than two arguments leaves the name or type nil. No call site in the file does that, so it is not modelled.
- Messages with an empty question list are excluded by precondition, because `add` and `message` index the first question.
- The `test/tc_rr-opt.rb` tests (EDNS0 OPT record handling over real sockets) are not part of this model.

## Findings

| source | as written | input that shows it | evidently intended | confidence | as-written member | corrected member |
|---|---|---|---|---|---|---|
| lib/Dnsruby/Cache.rb:42-45 | `delete` passes the `CacheKey` object, not its `to_s`, to `@@cache.delete`; the hash's keys are strings, so no entry is ever removed | `add` of an answer for (example.com., A, IN), then `delete("example.com", A)`: the entry is still there and a `find` in its lifetime still hits | remove the entry filed under the key's string, as `find` looks it up | high (not executed) | `DnsCache.Cache.Delete` | `DnsCache.Cache.DeleteByText` |

/** The semantic response cache (semcache/semcache.go): per bucket a ring of the last records stored, and
    a lookup by similarity. Embedding and similarity are functions; times are passed in. */
module SemanticCache {
  import opened Wrappers

  type Vec = seq<real>

  datatype Entry = Entry(body: string, provider: string, providerModel: string, promptTokens: int,
                         completionTokens: int, cost: real, storedAt: int)

  datatype Record = Record(vec: Vec, entry: Entry, expires: int)

  datatype Config = Config(enabled: bool, similarityMin: real, maxEntries: int, ttl: int)

  const DEFAULT_SIMILARITY := 0.92
  const DEFAULT_ENTRIES := 256
  const DEFAULT_TTL := 1_800_000_000_000

  /** The last n elements. */
  function Last<T>(s: seq<T>, n: nat): seq<T> {
    if |s| <= n then s else s[|s| - n..]
  }

  class Ring {
    var items: seq<Record>
    var next: nat

    /** The records from oldest to newest. */
    function Contents(): seq<Record>
      reads this
      requires next <= |items|
    {
      Rotated(items, next)
    }

    ghost predicate Holds(stored: seq<Record>, max: nat)
      reads this
    {
      && max > 0 && |items| <= max && next <= |items|
      && (|items| < max ==> next == 0)
      && (|items| == max ==> next < max)
      && Contents() == Last(stored, max)
    }

    constructor ()
      ensures items == [] && next == 0
    {
      items, next := [], 0;
    }

    /** Append until full, then overwrite the oldest. */
    method Add(rec: Record, max: nat, ghost stored: seq<Record>)
      requires Holds(stored, max)
      modifies this
      ensures Holds(stored + [rec], max)
    {
      LastStep(stored, rec, max);
      if |items| < max {
        Appended(items, rec);
        items := items + [rec];
        return;
      }
      var slot := (next + 1) % max;
      NextSlot(next, max);
      assert |Last(stored, max)| == max;
      Overwritten(items, next, slot, rec, max);
      items := items[next := rec];
      next := slot;
    }
  }

  function Rotated(items: seq<Record>, next: nat): seq<Record>
    requires next <= |items|
  {
    items[next..] + items[..next]
  }

  lemma LastStep(stored: seq<Record>, rec: Record, max: nat)
    requires max > 0
    ensures Last(stored + [rec], max) ==
            (if |Last(stored, max)| < max then Last(stored, max) else Last(stored, max)[1..]) + [rec]
  {
  }

  lemma Appended(items: seq<Record>, rec: Record)
    ensures Rotated(items + [rec], 0) == Rotated(items, 0) + [rec]
  {
  }

  lemma Overwritten(items: seq<Record>, next: nat, next': nat, rec: Record, max: nat)
    requires next < max == |items| && next' == (if next + 1 == max then 0 else next + 1)
    ensures Rotated(items[next := rec], next') == Rotated(items, next)[1..] + [rec]
  {
    if next + 1 == max {
      assert Rotated(items, next)[1..] == items[..next];
    } else {
      assert Rotated(items, next)[1..] == items[next + 1..] + items[..next];
    }
  }

  lemma NextSlot(next: nat, max: nat)
    requires next < max
    ensures (next + 1) % max == if next + 1 == max then 0 else next + 1
  {
  }

  // ---- lookup ----------------------------------------------------------------------------------

  predicate Live(rec: Record, now: int) {
    !(rec.expires < now)
  }

  /** The scan: the first record, unexpired, whose similarity exceeds all before it, starting from 0. */
  method Best(items: seq<Record>, vec: Vec, now: int, similarity: (Vec, Vec) -> real)
      returns (best: Option<Record>, sim: real)
    ensures best.None? ==> sim == 0.0
    ensures best.None? ==> forall i | 0 <= i < |items| && Live(items[i], now) :: similarity(vec, items[i].vec) <= 0.0
    ensures best.Some? ==> best.value in items && Live(best.value, now) && sim == similarity(vec, best.value.vec) > 0.0
    ensures best.Some? ==> forall i | 0 <= i < |items| && Live(items[i], now) :: similarity(vec, items[i].vec) <= sim
  {
    best, sim := None, 0.0;
    for i := 0 to |items|
      invariant best.None? ==> sim == 0.0
      invariant best.Some? ==>
                  best.value in items && Live(best.value, now) && sim == similarity(vec, best.value.vec) > 0.0
      invariant forall k | 0 <= k < i && Live(items[k], now) :: similarity(vec, items[k].vec) <= sim
    {
      if items[i].expires < now {
        continue;
      }
      var s := similarity(vec, items[i].vec);
      if s > sim {
        sim := s;
        best := Some(items[i]);
      }
    }
  }

  /** A live record of the bucket reaches the threshold. */
  ghost predicate Reaches(last: seq<Record>, cfg: Config, vec: Vec, now: int, similarity: (Vec, Vec) -> real) {
    exists r :: r in last && now <= r.expires && similarity(vec, r.vec) >= cfg.similarityMin
  }

  class Cache {
    const cfg: Config
    const embed: Option<string -> Option<Vec>>
    const similarity: (Vec, Vec) -> real
    var buckets: map<string, Ring>
    var hits: nat
    var misses: nat
    /** Every record ever stored, bucket by bucket. */
    ghost var stored: map<string, seq<Record>>

    ghost predicate Valid()
      reads this, buckets.Values
    {
      && cfg.maxEntries > 0 && cfg.similarityMin > 0.0
      && stored.Keys == buckets.Keys
      && (forall b | b in buckets :: buckets[b].Holds(stored[b], cfg.maxEntries))
      && (forall a, b | a in buckets && b in buckets && a != b :: buckets[a] != buckets[b])
    }

    /** The records the bucket may answer from. */
    ghost function Recent(bucket: string): seq<Record>
      reads this
      requires cfg.maxEntries > 0
    {
      Last(History(bucket), cfg.maxEntries)
    }

    ghost function History(bucket: string): seq<Record>
      reads this
    {
      if bucket in stored then stored[bucket] else []
    }

    constructor (cfg: Config, embed: Option<string -> Option<Vec>>, similarity: (Vec, Vec) -> real)
      ensures Valid() && stored == map[] && hits == 0 && misses == 0 && buckets == map[]
      ensures this.cfg.enabled == cfg.enabled && this.embed == embed && this.similarity == similarity
      ensures this.cfg.similarityMin == if cfg.similarityMin > 0.0 then cfg.similarityMin else 0.92
      ensures this.cfg.maxEntries == if cfg.maxEntries > 0 then cfg.maxEntries else 256
      ensures this.cfg.ttl == if cfg.ttl > 0 then cfg.ttl else 1_800_000_000_000
    {
      this.cfg := Config(cfg.enabled, if cfg.similarityMin <= 0.0 then DEFAULT_SIMILARITY else cfg.similarityMin,
                         if cfg.maxEntries <= 0 then DEFAULT_ENTRIES else cfg.maxEntries,
                         if cfg.ttl <= 0 then DEFAULT_TTL else cfg.ttl);
      this.embed, this.similarity := embed, similarity;
      buckets, stored, hits, misses := map[], map[], 0, 0;
    }

    predicate Enabled() {
      cfg.enabled && embed.Some?
    }

    /** The vector of a text; None if the cache is off, the text is empty or the embedding fails. */
    function Embedded(text: string): Option<Vec> {
      if !Enabled() || text == "" then None
      else
        match embed.value(text)
        case None => None
        case Some(v) => if v == [] then None else Some(v)
    }

    /** A hit iff some unexpired record among the last maxEntries stored for this very bucket reaches the
        threshold; then one of maximal similarity comes back. */
    method Lookup(bucket: string, text: string, now: int) returns (entry: Option<Entry>, sim: real)
      requires Valid()
      modifies this`hits, this`misses
      ensures Valid()
      ensures !cfg.enabled || embed == None || text == "" ==> entry == None
      ensures Embedded(text).None? ==> entry == None && sim == 0.0 && hits == old(hits) && misses == old(misses)
      ensures Embedded(text).Some? ==>
                (entry.Some? <==> Reaches(Recent(bucket), cfg, Embedded(text).value, now, similarity))
                && hits == old(hits) + (if entry.Some? then 1 else 0)
                && misses == old(misses) + (if entry.Some? then 0 else 1)
      ensures entry.Some? ==>
                exists r :: r in Recent(bucket) && r.entry == entry.value
                            && Nearest(r, Recent(bucket), Embedded(text).value, now, sim)
    {
      if !Enabled() || text == "" {
        return None, 0.0;
      }
      var vec := embed.value(text);
      if vec == None || |vec.value| == 0 {
        return None, 0.0;
      }
      assert Embedded(text) == vec;
      entry, sim := Answer(bucket, vec.value, now);
    }

    method Answer(bucket: string, vec: Vec, now: int) returns (entry: Option<Entry>, sim: real)
      requires Valid()
      modifies this`hits, this`misses
      ensures Valid()
      ensures entry.Some? <==> Reaches(Recent(bucket), cfg, vec, now, similarity)
      ensures hits == old(hits) + (if entry.Some? then 1 else 0)
              && misses == old(misses) + (if entry.Some? then 0 else 1)
      ensures entry.Some? ==>
                exists r :: r in Recent(bucket) && r.entry == entry.value && Nearest(r, Recent(bucket), vec, now, sim)
    {
      if bucket !in buckets {
        assert Recent(bucket) == [];
        misses := misses + 1;
        return None, 0.0;
      }
      var best;
      var r := buckets[bucket];
      SameMembers(r.items, r.next);
      best, sim := Best(r.items, vec, now, similarity);
      assert best.Some? ==> Nearest(best.value, Recent(bucket), vec, now, sim);
      if best == None || sim < cfg.similarityMin {
        misses := misses + 1;
        return None, sim;
      }
      hits := hits + 1;
      return Some(best.value.entry), sim;
    }

    /** A record that is live and nearest among the live ones. */
    ghost predicate Nearest(r: Record, last: seq<Record>, vec: Vec, now: int, sim: real) {
      && now <= r.expires && sim == similarity(vec, r.vec)
      && forall q | q in last && now <= q.expires :: similarity(vec, q.vec) <= sim
    }

    method EnsureRing(bucket: string) returns (r: Ring)
      requires Valid()
      modifies this`buckets, this`stored
      ensures Valid() && bucket in buckets && r == buckets[bucket]
      ensures fresh(buckets.Values - old(buckets.Values))
      ensures forall b :: History(b) == old(History(b))
    {
      if bucket !in buckets {
        var created := new Ring();
        buckets := buckets[bucket := created];
        stored := stored[bucket := []];
      }
      r := buckets[bucket];
    }

    /** The locked section of Store. */
    method Keep(bucket: string, rec: Record)
      requires Valid()
      modifies this`buckets, this`stored, buckets.Values
      ensures Valid()
      ensures History(bucket) == old(History(bucket)) + [rec]
      ensures forall b | b != bucket :: History(b) == old(History(b))
    {
      var r := EnsureRing(bucket);
      Append(bucket, r, rec);
    }

    method Append(bucket: string, r: Ring, rec: Record)
      requires Valid() && bucket in buckets && r == buckets[bucket]
      modifies this`stored, r
      ensures Valid()
      ensures stored == old(stored)[bucket := old(stored[bucket]) + [rec]]
    {
      r.Add(rec, cfg.maxEntries, stored[bucket]);
      stored := stored[bucket := stored[bucket] + [rec]];
    }

    /** Stores to one bucket leave every other bucket alone. */
    method Store(bucket: string, text: string, entry: Option<Entry>, now: int)
      requires Valid()
      modifies this`buckets, this`stored, buckets.Values
      ensures Valid()
      ensures forall b | b != bucket :: History(b) == old(History(b))
      ensures History(bucket) ==
              if entry.None? || Embedded(text).None? then old(History(bucket))
              else old(History(bucket)) + [Record(Embedded(text).value, entry.value.(storedAt := now), now + cfg.ttl)]
    {
      if !Enabled() || entry.None? || text == "" {
        return;
      }
      var vec := embed.value(text);
      if vec == None || |vec.value| == 0 {
        return;
      }
      Keep(bucket, Record(vec.value, entry.value.(storedAt := now), now + cfg.ttl));
    }
  }

  /** What is stored is found again up to the end of its time to live, by a text of the same vector if that is near
      enough to itself; and alone in its bucket it is not found after. */
  method StoreThenLookup(c: Cache, bucket: string, text: string, entry: Entry, at: int, now: int)
      returns (found: Option<Entry>)
    requires c.Valid() && c.cfg.enabled && c.embed.Some? && text != ""
    requires c.embed.value(text).Some? && c.embed.value(text).value != []
    modifies c, c.buckets.Values
    ensures c.Valid()
    ensures now <= at + c.cfg.ttl
            && c.similarity(c.embed.value(text).value, c.embed.value(text).value) >= c.cfg.similarityMin
            ==> found.Some?
    ensures now > at + c.cfg.ttl && old(c.History(bucket)) == [] ==> found == None
    ensures old(c.History(bucket)) == [] && found.Some? ==> found.value == entry.(storedAt := at)
  {
    c.Store(bucket, text, Some(entry), at);
    ghost var rec := Record(c.embed.value(text).value, entry.(storedAt := at), at + c.cfg.ttl);
    LastKept(old(c.History(bucket)), rec, c.cfg.maxEntries);
    var sim;
    found, sim := c.Lookup(bucket, text, now);
  }

  lemma LastKept(stored: seq<Record>, rec: Record, max: nat)
    requires max > 0
    ensures rec in Last(stored + [rec], max) && (stored == [] ==> Last(stored + [rec], max) == [rec])
  {
    var kept := Last(stored + [rec], max);
    assert kept[|kept| - 1] == rec;
  }

  lemma SameMembers(items: seq<Record>, next: nat)
    requires next <= |items|
    ensures forall r :: r in items <==> r in Rotated(items, next)
  {
    assert items == items[..next] + items[next..];
  }
}

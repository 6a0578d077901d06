/** Expiry arithmetic over `u64`, and the payloads that count as empty. */
module Ttl {
  import opened Texts

  const U64_MAX: nat := 0xFFFF_FFFF_FFFF_FFFF
  const MAX_JITTER_MS: nat := 1000
  const YEAR_SECS: nat := 31_536_000

  function SaturatingMul(a: nat, b: nat): nat {
    if a * b <= U64_MAX then a * b else U64_MAX
  }

  function SaturatingAdd(a: nat, b: nat): nat {
    if a + b <= U64_MAX then a + b else U64_MAX
  }

  const EMPTY_ARRAY: Text := [91, 93]
  const NULL: Text := [110, 117, 108, 108]
  const EMPTY_OBJECT: Text := [123, 125]

  predicate IsEmptyPayload(s: Text) {
    s == EMPTY_ARRAY || s == NULL || s == EMPTY_OBJECT || s == []
  }

  /** The TTL `CacheLayer` passes to the backend. */
  function LayerTtlMs(cacheSecs: nat, nullSecs: nat, payload: Text, jitter: nat): nat {
    if IsEmptyPayload(payload) then SaturatingMul(nullSecs, 1000)
    else SaturatingAdd(SaturatingMul(cacheSecs, 1000), jitter)
  }

  /** `GroupedCache::try_new`: `checked_mul`, then the one-year filter. */
  function BackstopMs(secs: nat): Option<nat> {
    if secs * 1000 > U64_MAX then None
    else if secs * 1000 <= 365 * 24 * 60 * 60 * 1000 then Some(secs * 1000)
    else None
  }

  /** The TTL given to a field write; a zero backstop writes without one. */
  function FieldTtlMs(backstopMs: nat, jitter: nat): Option<nat> {
    if backstopMs == 0 then None else Some(backstopMs + jitter)
  }

  /** The four texts by their bytes. */
  lemma EmptyBytes(s: Text)
    ensures IsEmptyPayload(s) <==> s in [[91, 93], [110, 117, 108, 108], [123, 125], []]
  {
  }

  /** Two roundings never compound: the TTL is the exact sum, clipped once at the top. */
  lemma LayerTtlExact(cacheSecs: nat, nullSecs: nat, payload: Text, jitter: nat)
    requires cacheSecs <= U64_MAX && nullSecs <= U64_MAX && jitter <= MAX_JITTER_MS
    ensures var exact := if IsEmptyPayload(payload) then nullSecs * 1000 else cacheSecs * 1000 + jitter;
            var ttl := LayerTtlMs(cacheSecs, nullSecs, payload, jitter);
            && ttl <= exact && ttl <= U64_MAX
            && (ttl == exact || ttl == U64_MAX < exact)
            && (0 < ttl <==> 0 < exact)
  {
  }

  /** Accepted exactly up to a year, and then adding jitter cannot overflow. */
  lemma BackstopAccepts(secs: nat, jitter: nat)
    requires secs <= U64_MAX && jitter <= MAX_JITTER_MS
    ensures BackstopMs(secs).Some? <==> secs <= YEAR_SECS
    ensures BackstopMs(secs).Some? ==>
              match FieldTtlMs(BackstopMs(secs).value, jitter)
              case None => secs == 0
              case Some(ttl) => 1000 <= ttl == secs * 1000 + jitter <= U64_MAX
  {
  }
}

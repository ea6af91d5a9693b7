/** The key finalizer: the raw shared secret becomes the master secret, is
    erased at once, the session keys are expanded, and the session is cached
    when the resumption policy allows it. Any failing step ends the sequence. */
module KeyFinalizer {
  import opened Bytes
  import opened Errors
  import opened Connection

  /** Where the raw shared secret lives: the connection's pre-master buffer (RSA),
      or a buffer allocated for it (DHE, ECDHE and hybrid). */
  datatype SharedKey = PremasterSlot | Allocated(bytes: seq<uint8>)

  function SecretOf(conn: Conn, key: SharedKey): seq<uint8> {
    match key
    case PremasterSlot => conn.rsaPremaster
    case Allocated(bytes) => bytes
  }

  /** The connection after the finalizer, the steps it performed in order, and
      whether it succeeded. */
  datatype Finalized = Finalized(conn: Conn, steps: seq<Event>, outcome: Outcome)

  /** The erase steps: zero, then free when the secret was allocated. */
  function EraseSteps(key: SharedKey): seq<Event> {
    [ZeroSecret] + (if key.Allocated? then [FreeSecret] else [])
  }

  /** The steps the finalizer performs when nothing fails, in order. */
  function FinalizerSteps(key: SharedKey, cached: bool): seq<Event> {
    [PrfStep] + EraseSteps(key) + [KeyExpansion] + (if cached then [CacheStore] else [])
  }

  /** Zeroes the secret (and frees it when it was allocated, which leaves nothing
      of it in the connection). */
  function EraseSecret(conn: Conn, key: SharedKey): (c: Conn)
    ensures key.PremasterSlot? ==> IsZero(c.rsaPremaster)
    ensures c == conn.(rsaPremaster := c.rsaPremaster)
    ensures key.Allocated? ==> c == conn
  {
    match key
    case PremasterSlot => conn.(rsaPremaster := Zeros(SECRET_LEN))
    case Allocated(_) => conn
  }

  /** Key expansion, then the cache store when the policy allows it. */
  function ExpandAndCache(erased: Conn, prims: Primitives): (r: Finalized)
    ensures r.conn == erased.(keyBlock := r.conn.keyBlock)
    ensures r.steps <= [KeyExpansion] + (if erased.cachingAllowed then [CacheStore] else [])
    ensures r.outcome.Pass? <==> r.steps == [KeyExpansion] + (if erased.cachingAllowed then [CacheStore] else [])
    ensures prims.keyExpansion(erased).Err? ==>
              r == Finalized(erased, [], Fail(prims.keyExpansion(erased).error))
    ensures prims.keyExpansion(erased).Ok? ==>
              && r.conn == erased.(keyBlock := prims.keyExpansion(erased).value)
              && r.outcome == (if erased.cachingAllowed then prims.cacheStore(r.conn) else Pass)
  {
    match prims.keyExpansion(erased)
    case Err(e) => Finalized(erased, [], Fail(e))
    case Ok(block) =>
      var expanded := erased.(keyBlock := block);
      if !expanded.cachingAllowed then Finalized(expanded, [KeyExpansion], Pass)
      else
        match prims.cacheStore(expanded)
        case Fail(e) => Finalized(expanded, [KeyExpansion], Fail(e))
        case Pass => Finalized(expanded, [KeyExpansion, CacheStore], Pass)
  }

  /** Master secret from the raw secret, erase, expand keys, then cache if allowed. */
  function CalculateKeys(conn: Conn, key: SharedKey, prims: Primitives): (r: Finalized)
    ensures r.steps <= FinalizerSteps(key, conn.cachingAllowed)
    ensures r.outcome.Pass? <==> r.steps == FinalizerSteps(key, conn.cachingAllowed)
    ensures prims.prf(conn, SecretOf(conn, key)).Err? ==>
              r == Finalized(conn, [], Fail(prims.prf(conn, SecretOf(conn, key)).error))
    ensures prims.prf(conn, SecretOf(conn, key)).Ok? ==>
              && r.conn.masterSecret == prims.prf(conn, SecretOf(conn, key)).value
              && [PrfStep] + EraseSteps(key) <= r.steps
              && (key.PremasterSlot? ==> IsZero(r.conn.rsaPremaster))
    ensures r.conn == conn.(rsaPremaster := r.conn.rsaPremaster, masterSecret := r.conn.masterSecret,
                            keyBlock := r.conn.keyBlock)
    ensures prims.prf(conn, SecretOf(conn, key)).Ok? ==>
              var seen := conn.(masterSecret := prims.prf(conn, SecretOf(conn, key)).value,
                                rsaPremaster := if key.PremasterSlot? then Zeros(SECRET_LEN) else conn.rsaPremaster);
              var expanded := prims.keyExpansion(seen);
              && (expanded.Err? ==> r.conn == seen && r.outcome == Fail(expanded.error))
              && (expanded.Ok? ==> r.conn == seen.(keyBlock := expanded.value))
              && (expanded.Ok? ==> r.outcome == (if conn.cachingAllowed then prims.cacheStore(r.conn) else Pass))
  {
    match prims.prf(conn, SecretOf(conn, key))
    case Err(e) => Finalized(conn, [], Fail(e))
    case Ok(master) =>
      var erased := EraseSecret(conn.(masterSecret := master), key);
      var rest := ExpandAndCache(erased, prims);
      Finalized(rest.conn, [PrfStep] + EraseSteps(key) + rest.steps, rest.outcome)
  }

  /** The raw secret is erased before the keys are expanded. Whenever key
      expansion has happened, the PRF and the erase steps came right before it,
      and the expansion was given the final connection without its key block:
      the new master secret in place and a pre-master-backed secret already
      zero, nothing else changed. A cache store only ever follows key expansion
      under a permitting policy, and it was given the expanded connection. */
  lemma EraseBeforeExpansion(conn: Conn, key: SharedKey, prims: Primitives)
    ensures var r := CalculateKeys(conn, key, prims);
            var steps := r.steps;
            && (forall i :: 0 <= i < |steps| && steps[i] == KeyExpansion ==>
                  && i == 1 + |EraseSteps(key)|
                  && steps[..i] == [PrfStep] + EraseSteps(key))
            && (CacheStore in steps ==> conn.cachingAllowed && KeyExpansion in steps)
    ensures var r := CalculateKeys(conn, key, prims);
            var seen := r.conn.(keyBlock := conn.keyBlock);
            KeyExpansion in r.steps ==>
              && prims.prf(conn, SecretOf(conn, key)) == Ok(seen.masterSecret)
              && prims.keyExpansion(seen) == Ok(r.conn.keyBlock)
              && (key.PremasterSlot? ==> IsZero(seen.rsaPremaster))
              && seen == conn.(masterSecret := seen.masterSecret, rsaPremaster := seen.rsaPremaster)
              && (CacheStore in r.steps ==> prims.cacheStore(r.conn) == Pass)
  {
  }

  /** The finalizer's collaborators never fail. */
  ghost predicate FinalizerSucceeds(prims: Primitives) {
    && (forall c: Conn, s: seq<uint8> :: prims.prf(c, s).Ok?)
    && (forall c: Conn :: prims.keyExpansion(c).Ok?)
    && (forall c: Conn :: prims.cacheStore(c) == Pass)
  }

  /** With collaborators that never fail, the finalizer performs every step and succeeds. */
  lemma FinalizerCompletes(conn: Conn, key: SharedKey, prims: Primitives)
    requires FinalizerSucceeds(prims)
    ensures CalculateKeys(conn, key, prims).outcome == Pass
    ensures CalculateKeys(conn, key, prims).steps == FinalizerSteps(key, conn.cachingAllowed)
  {
  }
}

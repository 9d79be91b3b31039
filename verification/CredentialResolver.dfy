/**
 The resolver as written: retry loops around read-modify-write, and a local cache.  Other
 writers are a parameter: `others[k]` lists the operations they get accepted between the read
 and the write of attempt k, `fates[k]` says what becomes of that attempt's write request.
 */
module CredentialResolver {
  import opened Common
  import opened Credentials

  datatype Cached = Cached(at: int, token: Token)

  datatype Put = Written | Conflict | Failed(saysCas: bool)

  function ApplyAll(d: Document, ops: seq<Op>): Document {
    if ops == [] then d else Apply(ApplyAll(d, ops[..|ops| - 1]), ops[|ops| - 1])
  }

  /** The versioned key-value server; `log` is its write history. */
  class Server {
    var document: Document
    var version: nat
    ghost var log: seq<Op>

    ghost predicate Valid()
      reads this
    {
      document == ApplyAll(map[], log) && version == |log|
    }

    constructor ()
      ensures Valid() && log == []
    {
      document, version, log := map[], 0, [];
    }

    /** Writes of other clients. */
    method Accept(ops: seq<Op>)
      requires Valid()
      modifies this
      ensures Valid() && log == old(log) + ops
    {
      for k := 0 to |ops|
        invariant Valid() && log == old(log) + ops[..k]
      {
        assert ops[..k + 1] == ops[..k] + [ops[k]];
        assert (log + [ops[k]])[..|log|] == log;
        document, version := Apply(document, ops[k]), version + 1;
        log := log + [ops[k]];
      }
      assert ops[..|ops|] == ops;
    }

    /** _put_document: a conditional write of a whole document, made from version `cas` by `op`. */
    method PutDocument(d: Document, ghost op: Op, cas: nat, fate: Fate) returns (r: Put)
      requires Valid()
      requires cas <= |log| && d == Apply(ApplyAll(map[], log[..cas]), op)
      modifies this
      ensures Valid()
      ensures log == if cas == |old(log)| && !fate.RequestLost? then old(log) + [op] else old(log)
      ensures r == if fate.Answered? then (if cas == |old(log)| then Written else Conflict) else Failed(fate.saysCas)
    {
      if fate.RequestLost? { return Failed(fate.saysCas); }
      if cas != version { return if fate.ReplyLost? then Failed(fate.saysCas) else Conflict; }
      assert log[..cas] == log;
      assert (log + [op])[..|log|] == log;
      document, version := d, version + 1;
      log := log + [op];
      r := if fate.ReplyLost? then Failed(fate.saysCas) else Written;
    }

    /** The write of one attempt, right after its read; `ops` get in between. */
    method Attempt(ops: seq<Op>, d: Document, ghost op: Op, cas: nat, fate: Fate) returns (r: Put)
      requires Valid() && cas == version && d == Apply(document, op)
      modifies this
      ensures Valid()
      ensures log == old(log) + ops + (if ops == [] && !fate.RequestLost? then [op] else [])
      ensures r == if fate.Answered? then (if ops == [] then Written else Conflict) else Failed(fate.saysCas)
      ensures r.Written? ==> document == d
    {
      ghost var read := log;
      Accept(ops);
      assert log[..cas] == read;
      r := PutDocument(d, op, cas, fate);
      if r.Written? { assert log[..|log| - 1] == read; }
    }
  }

  /** What the log gains while a call makes its attempts: the other writers' operations of each
      attempt, then the call's own where it was applied. */
  function Story(op: Op, others: seq<seq<Op>>, own: seq<bool>): seq<Op>
    requires |own| <= |others|
  {
    if own == [] then []
    else
      var k := |own| - 1;
      Story(op, others, own[..k]) + others[k] + (if own[k] then [op] else [])
  }

  lemma StorySnoc(op: Op, others: seq<seq<Op>>, own: seq<bool>, wrote: bool)
    requires |own| < |others|
    ensures Story(op, others, own + [wrote]) == Story(op, others, own) + others[|own|] + (if wrote then [op] else [])
  {
    assert (own + [wrote])[..|own|] == own;
  }

  lemma Regroup(a: seq<Op>, b: seq<Op>, c: seq<Op>, d: seq<Op>)
    ensures a + b + c + d == a + (b + c + d)
  {
  }

  lemma StoryGrows(op: Op, others: seq<seq<Op>>, own: seq<bool>, wrote: bool,
                   before: seq<Op>, now: seq<Op>, after: seq<Op>)
    requires |own| < |others|
    requires now == before + Story(op, others, own)
    requires after == now + others[|own|] + (if wrote then [op] else [])
    ensures after == before + Story(op, others, own + [wrote])
  {
    StorySnoc(op, others, own, wrote);
    Regroup(before, Story(op, others, own), others[|own|], if wrote then [op] else []);
  }

  /** The call wrote in no attempt so far, each time because another writer got in. */
  predicate Beaten(own: seq<bool>, others: seq<seq<Op>>)
    requires |own| <= |others|
  {
    forall k :: 0 <= k < |own| ==> !own[k] && others[k] != []
  }

  /** The environment of one call, attempt by attempt. */
  datatype Env = Env(fetches: seq<bool>, others: seq<seq<Op>>, fates: seq<Fate>)

  predicate ForAttempts(e: Env) { |e.fetches| == |e.others| == |e.fates| == ATTEMPTS }

  /** Every exchange with the server was answered. */
  predicate Answering(e: Env) {
    (forall k :: 0 <= k < |e.fetches| ==> e.fetches[k]) && forall k :: 0 <= k < |e.fates| ==> e.fates[k].Answered?
  }

  /** An attempt that does not end the call: answered with a conflict, or lost with an error that
      says "cas". */
  predicate Repeats(e: Env, j: nat)
    requires ForAttempts(e) && j < ATTEMPTS
  {
    e.fetches[j] && if e.fates[j].Answered? then e.others[j] != [] else e.fates[j].saysCas
  }

  predicate Undisturbed(e: Env, k: nat)
    requires ForAttempts(e) && k < ATTEMPTS
  {
    e.fetches[k] && e.fates[k].Answered? && e.others[k] == []
  }

  /** Some attempt reads and writes undisturbed, and every one before it is repeated. */
  predicate GoesThrough(e: Env)
    requires ForAttempts(e)
  {
    exists k :: 0 <= k < ATTEMPTS && Undisturbed(e, k) && forall j :: 0 <= j < k ==> Repeats(e, j)
  }

  lemma NeverThrough(e: Env, n: nat)
    requires ForAttempts(e) && n <= ATTEMPTS && forall j :: 0 <= j < n ==> Repeats(e, j)
    requires n < ATTEMPTS ==> !Repeats(e, n) && !Undisturbed(e, n)
    ensures !GoesThrough(e)
  {
    forall k: nat | k < ATTEMPTS && Undisturbed(e, k) ensures n < k && !Repeats(e, n) {
      assert !Repeats(e, k);
    }
  }

  ghost predicate OnceStored(log: seq<Op>, key: Ref, token: Token) {
    exists v :: 0 <= v <= |log| && Holds(ApplyAll(map[], log[..v]), Store(key, token))
  }

  ghost predicate CacheOk(cache: map<Ref, Cached>, log: seq<Op>) {
    forall key | key in cache :: OnceStored(log, key, cache[key].token)
  }

  lemma CacheSurvives(cache: map<Ref, Cached>, log: seq<Op>, key: Ref, more: seq<Op>)
    requires CacheOk(cache, log)
    ensures CacheOk(cache, log + more) && CacheOk(cache - {key}, log + more)
  {
    forall k | k in cache ensures OnceStored(log + more, k, cache[k].token) {
      var v :| 0 <= v <= |log| && Holds(ApplyAll(map[], log[..v]), Store(k, cache[k].token));
      assert (log + more)[..v] == log[..v];
    }
  }

  class BaoCredentialResolver {
    const server: Server
    const cacheSeconds: int
    var cache: map<Ref, Cached>

    /** Every cached token was once the stored one. */
    ghost predicate Valid()
      reads this, server
    {
      server.Valid() && CacheOk(cache, server.log)
    }

    constructor (server: Server, cacheSeconds: int)
      requires server.Valid()
      ensures Valid() && this.server == server && cache == map[]
    {
      this.server, this.cacheSeconds, cache := server, cacheSeconds, map[];
    }

    /** resolve_zabbix_api_token */
    method Resolve(key: Ref, now: int, read: bool) returns (token: Option<Token>)
      requires Valid()
      modifies this
      ensures Valid()
      ensures key in old(cache) && now - old(cache)[key].at < cacheSeconds ==>
                token == Some(old(cache)[key].token) && cache == old(cache)
      ensures !(key in old(cache) && now - old(cache)[key].at < cacheSeconds) ==>
                token == if read && key in server.document && server.document[key] != ""
                         then Some(server.document[key]) else None
      ensures token.Some? ==> key in cache && cache[key].token == token.value
      ensures !(key in old(cache) && now - old(cache)[key].at < cacheSeconds) ==>
                cache == if token.Some? then old(cache)[key := Cached(now, token.value)] else old(cache)
    {
      if key in cache && now - cache[key].at < cacheSeconds { return Some(cache[key].token); }
      if !read || key !in server.document || server.document[key] == "" { return None; }
      token := Some(server.document[key]);
      assert server.log[..|server.log|] == server.log;
      assert OnceStored(server.log, key, token.value);
      cache := cache[key := Cached(now, token.value)];
    }

    /** The story of a call so far. */
    ghost predicate Tells(before: seq<Op>, op: Op, e: Env, own: seq<bool>)
      reads server
    {
      && ForAttempts(e) && |own| <= ATTEMPTS && server.Valid()
      && server.log == before + Story(op, e.others, own)
      && (Answering(e) ==> own == [] || Beaten(own[..|own| - 1], e.others))
    }

    /** Write back the document of one attempt, just read and changed by `op`. */
    method WriteBack(d: Document, op: Op, e: Env, attempt: nat, ghost before: seq<Op>, ghost own: seq<bool>)
      returns (r: Put, ghost own': seq<bool>)
      requires Tells(before, op, e, own) && attempt == |own| < ATTEMPTS
      requires Answering(e) ==> Beaten(own, e.others)
      requires d == Apply(server.document, op)
      modifies server
      ensures Tells(before, op, e, own') && |own'| == attempt + 1
      ensures r.Written? ==> server.document == d
      ensures r == if e.fates[attempt].Answered? then (if e.others[attempt] == [] then Written else Conflict)
                   else Failed(e.fates[attempt].saysCas)
      ensures Answering(e) ==> r.Written? || (r.Conflict? && Beaten(own', e.others))
    {
      ghost var wrote := e.others[attempt] == [] && !e.fates[attempt].RequestLost?;
      ghost var now := server.log;
      r := server.Attempt(e.others[attempt], d, op, server.version, e.fates[attempt]);
      StoryGrows(op, e.others, own, wrote, before, now, server.log);
      own' := own + [wrote];
      assert own'[..|own|] == own;
    }

    /** The retry loop of the store. */
    method RetryStore(key: Ref, token: Token, e: Env) returns (ok: bool, ghost own: seq<bool>)
      requires server.Valid() && ForAttempts(e)
      modifies server
      ensures Tells(old(server.log), Store(key, token), e, own)
      ensures ok ==> Holds(server.document, Store(key, token))
      ensures ok <==> GoesThrough(e)
      ensures !ok && Answering(e) ==> |own| == ATTEMPTS && Beaten(own, e.others)
    {
      own, ok := [], false;
      var attempt := 0;
      while attempt < ATTEMPTS
        invariant !ok && attempt == |own| && Tells(old(server.log), Store(key, token), e, own)
        invariant forall j :: 0 <= j < attempt ==> Repeats(e, j)
        invariant Answering(e) ==> Beaten(own, e.others)
      {
        if !e.fetches[attempt] {
          NeverThrough(e, attempt);
          return;
        }
        var r;
        r, own := WriteBack(server.document[key := token], Store(key, token), e, attempt, old(server.log), own);
        ok := r.Written?;
        if ok || (r.Failed? && !r.saysCas) {
          if ok { assert Undisturbed(e, attempt); } else { NeverThrough(e, attempt); }
          return;
        }
        attempt := attempt + 1;
      }
      NeverThrough(e, ATTEMPTS);
    }

    /** The retry loop of the delete: done when the reference is absent. */
    method RetryDelete(key: Ref, e: Env) returns (ok: bool, ghost own: seq<bool>)
      requires server.Valid() && ForAttempts(e)
      modifies server
      ensures Tells(old(server.log), Delete(key), e, own)
      ensures ok ==> key !in server.document
      ensures GoesThrough(e) ==> ok
      ensures !ok && Answering(e) ==> |own| == ATTEMPTS && Beaten(own, e.others)
      ensures key !in old(server.document) && e.fetches[0] ==> ok && own == []
    {
      own, ok := [], false;
      var attempt := 0;
      while attempt < ATTEMPTS
        invariant !ok && attempt == |own| && Tells(old(server.log), Delete(key), e, own)
        invariant forall j :: 0 <= j < attempt ==> Repeats(e, j)
        invariant Answering(e) ==> Beaten(own, e.others)
        invariant if attempt == 0 then server.document == old(server.document) else key in old(server.document)
      {
        if !e.fetches[attempt] {
          NeverThrough(e, attempt);
          return;
        }
        ok := key !in server.document;
        if ok { return; }
        var r;
        r, own := WriteBack(server.document - {key}, Delete(key), e, attempt, old(server.log), own);
        ok := r.Written?;
        if ok || (r.Failed? && !r.saysCas) {
          if ok { assert Undisturbed(e, attempt); } else { NeverThrough(e, attempt); }
          return;
        }
        attempt := attempt + 1;
      }
      NeverThrough(e, ATTEMPTS);
    }

    /** store_zabbix_api_token, for a safe reference.  A normal return means the token is
        stored and no longer cached; an error leaves the cache as it was; and when every
        exchange is answered, an error means another writer got in during all three attempts
        and this call wrote nothing. */
    method StoreToken(key: Ref, token: Token, e: Env) returns (ok: bool, ghost own: seq<bool>)
      requires Valid() && ForAttempts(e)
      modifies this, server
      ensures Valid()
      ensures |own| <= ATTEMPTS && server.log == old(server.log) + Story(Store(key, token), e.others, own)
      ensures ok ==> Holds(server.document, Store(key, token)) && cache == old(cache) - {key}
      ensures ok <==> token != "" && GoesThrough(e)
      ensures !ok ==> cache == old(cache)
      ensures !ok && token != "" && Answering(e) ==> |own| == ATTEMPTS && Beaten(own, e.others)
      ensures token == "" ==> !ok && own == []
    {
      own, ok := [], false;
      if token == "" { return; }
      ok, own := RetryStore(key, token, e);
      CacheSurvives(cache, old(server.log), key, Story(Store(key, token), e.others, own));
      if ok { cache := cache - {key}; }
    }

    /** delete_zabbix_api_token, for a safe reference; silently done when already absent. */
    method DeleteToken(key: Ref, e: Env) returns (ok: bool, ghost own: seq<bool>)
      requires Valid() && ForAttempts(e)
      modifies this, server
      ensures Valid()
      ensures |own| <= ATTEMPTS && server.log == old(server.log) + Story(Delete(key), e.others, own)
      ensures ok ==> Holds(server.document, Delete(key)) && cache == old(cache) - {key}
      ensures GoesThrough(e) ==> ok
      ensures !ok ==> cache == old(cache)
      ensures !ok && Answering(e) ==> |own| == ATTEMPTS && Beaten(own, e.others)
      ensures key !in old(server.document) && e.fetches[0] ==> ok && own == []
    {
      ok, own := RetryDelete(key, e);
      CacheSurvives(cache, old(server.log), key, Story(Delete(key), e.others, own));
      if ok { cache := cache - {key}; }
    }
  }
}

/** The X-Accel-Redirect handler: one decision per request, with its outcome counters. */
module Handlers {
  import opened Expiry
  import opened Stores
  import CachedStores
  import Fingerprints

  type Bytes = Fingerprints.Bytes

  datatype Config = Config(failOpen: bool, window: Time, prefix: Bytes, excluded: Bytes -> bool)

  /** 200 with X-Accel-Redirect, 409, or 500. */
  datatype Response = Redirect(target: Bytes) | Conflict | ServerError

  /** The response to a request that reached the store. */
  function Respond(cfg: Config, uri: Bytes, reply: Reply): Response {
    match reply
    case Unavailable => if cfg.failOpen then Redirect(cfg.prefix + uri) else ServerError
    case Answer(duplicate) => if duplicate then Conflict else Redirect(cfg.prefix + uri)
  }

  class XAccelHandler {
    const cfg: Config
    const store: CachedStores.CachedStore
    const pool: Fingerprints.HasherPool
    const sha: Bytes -> Fingerprints.Hex
    var excluded: nat
    var allowed: nat
    var duplicate: nat
    var error: nat
    ghost var requests: nat
    ghost var redirects: nat
    ghost var unreadable: nat

    /** The conservation laws: every request is counted once, every redirect has a cause,
        and the handler's counters match the store's. */
    ghost predicate Balanced()
      reads this, store
    {
      && requests == excluded + allowed + duplicate + error
      && redirects == excluded + allowed + (if cfg.failOpen then error else 0)
      && store.hits + store.misses == requests - excluded - unreadable
      && duplicate == store.hits + store.backendDuplicates
      && error == unreadable + store.backendErrors
      && allowed + store.backendDuplicates == store.l1Writes
    }

    ghost predicate Valid()
      reads this, store, store.cache, store.cache.shards
    {
      store.Valid() && Balanced()
    }

    constructor (cfg: Config, store: CachedStores.CachedStore, sha: Bytes -> Fingerprints.Hex)
      requires store.Valid() && store.hits == store.misses == store.backendDuplicates == store.backendErrors == 0
      ensures Valid() && this.cfg == cfg && this.store == store && this.sha == sha && fresh(pool) && pool.idle == {}
    {
      this.cfg, this.store, this.sha := cfg, store, sha;
      pool := new Fingerprints.HasherPool();
      excluded, allowed, duplicate, error := 0, 0, 0, 0;
      requests, redirects, unreadable := 0, 0, 0;
    }

    method Allow(uri: Bytes) returns (resp: Response)
      modifies `redirects
      ensures resp == Redirect(cfg.prefix + uri) && redirects == old(redirects) + 1
    {
      redirects := redirects + 1;
      resp := Redirect(cfg.prefix + uri);
    }

    method HandleStoreErr(uri: Bytes) returns (resp: Response)
      modifies `redirects
      ensures resp == if cfg.failOpen then Redirect(cfg.prefix + uri) else ServerError
      ensures redirects == old(redirects) + if cfg.failOpen then 1 else 0
    {
      if cfg.failOpen {
        resp := Allow(uri);
      } else {
        resp := ServerError;
      }
    }

    /** The part of Handle after the fingerprint: one store call, one outcome. */
    method Check(key: Key, uri: Bytes, t: CachedStores.Samples, network: Fault) returns (resp: Response)
      requires Valid()
      modifies this, store, store.backend.Repr(), store.cache.shards
      ensures Valid() && requests == old(requests) + 1 && excluded == old(excluded)
      ensures var o := CachedStores.Call(old(store.View()), old(store.backend.Suffers(network)), key, cfg.window, t);
              && store.View() == o.tiers && resp == Respond(cfg, uri, o.reply)
              && (o.reply == Answer(true) ==> resp == Conflict)
              && (o.reply == Answer(false) ==> resp == Redirect(cfg.prefix + uri))
              && (o.reply == Unavailable ==> resp == if cfg.failOpen then Redirect(cfg.prefix + uri) else ServerError)
              && duplicate == old(duplicate) + (if o.reply == Answer(true) then 1 else 0)
              && allowed == old(allowed) + (if o.reply == Answer(false) then 1 else 0)
              && error == old(error) + (if o.reply == Unavailable then 1 else 0)
              && store.misses == old(store.misses) + (if o.missed then 1 else 0)
              && store.hits == old(store.hits) + (if o.missed then 0 else 1)
    {
      var reply := store.IsDuplicate(key, cfg.window, t, network);
      requests := requests + 1;
      resp := Decide(uri, reply);
    }

    /** The outcome of a store call: its counter and its response. */
    method Decide(uri: Bytes, reply: Reply) returns (resp: Response)
      modifies `error, `duplicate, `allowed, `redirects
      ensures resp == Respond(cfg, uri, reply)
      ensures reply == Answer(true) ==> resp == Conflict
      ensures reply == Answer(false) ==> resp == Redirect(cfg.prefix + uri)
      ensures reply == Unavailable ==> resp == if cfg.failOpen then Redirect(cfg.prefix + uri) else ServerError
      ensures duplicate == old(duplicate) + (if reply == Answer(true) then 1 else 0)
      ensures allowed == old(allowed) + (if reply == Answer(false) then 1 else 0)
      ensures error == old(error) + (if reply == Unavailable then 1 else 0)
      ensures redirects == old(redirects) + (if resp.Redirect? then 1 else 0)
    {
      if reply.Unavailable? {
        error := error + 1;
        resp := HandleStoreErr(uri);
      } else if reply.duplicate {
        duplicate := duplicate + 1;
        resp := Conflict;
      } else {
        allowed := allowed + 1;
        resp := Allow(uri);
      }
    }

    method Handle(verb: Bytes, uri: Bytes, body: Fingerprints.BodyReader?, t: CachedStores.Samples, network: Fault)
      returns (resp: Response)
      requires Valid()
      modifies this, store, store.backend.Repr(), store.cache.shards, pool, pool.idle, if body == null then {} else {body}
      ensures Valid() && requests == old(requests) + 1
      ensures excluded == old(excluded) + (if cfg.excluded(verb) then 1 else 0)
      ensures cfg.excluded(verb) ==>
                && resp == Redirect(cfg.prefix + uri) && store.View() == old(store.View())
                && store.hits == old(store.hits) && store.misses == old(store.misses)
                && duplicate == old(duplicate) && allowed == old(allowed) && error == old(error)
      ensures !cfg.excluded(verb) && body != null && body.fails ==>
                && resp == (if cfg.failOpen then Redirect(cfg.prefix + uri) else ServerError)
                && store.View() == old(store.View()) && store.hits == old(store.hits) && store.misses == old(store.misses)
                && duplicate == old(duplicate) && allowed == old(allowed) && error == old(error) + 1
      ensures !cfg.excluded(verb) && (body == null || !body.fails) ==>
                var bytes := if body == null then [] else Fingerprints.Concat(old(body.rest));
                var key := Key(Fingerprints.KeyOf(sha, verb, uri, bytes));
                var o := CachedStores.Call(old(store.View()), old(store.backend.Suffers(network)), key, cfg.window, t);
                && store.View() == o.tiers && resp == Respond(cfg, uri, o.reply)
                && (o.reply == Answer(true) ==> resp == Conflict)
                && (o.reply == Answer(false) ==> resp == Redirect(cfg.prefix + uri))
                && (o.reply == Unavailable ==> resp == if cfg.failOpen then Redirect(cfg.prefix + uri) else ServerError)
                && duplicate == old(duplicate) + (if o.reply == Answer(true) then 1 else 0)
                && allowed == old(allowed) + (if o.reply == Answer(false) then 1 else 0)
                && error == old(error) + (if o.reply == Unavailable then 1 else 0)
                && store.misses == old(store.misses) + (if o.missed then 1 else 0)
                && store.hits == old(store.hits) + (if o.missed then 0 else 1)
    {
      if cfg.excluded(verb) {
        resp := Skip(uri);
        return;
      }
      var reader: Fingerprints.BodyReader;
      if body == null {
        reader := new Fingerprints.BodyReader([], false);
      } else {
        reader := body;
      }
      resp := Deduplicate(verb, uri, reader, t, network);
    }

    /** The part of Handle for methods that are not excluded. */
    method Deduplicate(verb: Bytes, uri: Bytes, body: Fingerprints.BodyReader, t: CachedStores.Samples, network: Fault)
      returns (resp: Response)
      requires Valid()
      modifies this, store, store.backend.Repr(), store.cache.shards, pool, pool.idle, body
      ensures Valid() && requests == old(requests) + 1 && excluded == old(excluded)
      ensures body.fails ==>
                && resp == (if cfg.failOpen then Redirect(cfg.prefix + uri) else ServerError)
                && store.View() == old(store.View()) && store.hits == old(store.hits) && store.misses == old(store.misses)
                && duplicate == old(duplicate) && allowed == old(allowed) && error == old(error) + 1
      ensures !body.fails ==>
                var key := Key(Fingerprints.KeyOf(sha, verb, uri, Fingerprints.Concat(old(body.rest))));
                var o := CachedStores.Call(old(store.View()), old(store.backend.Suffers(network)), key, cfg.window, t);
                && store.View() == o.tiers && resp == Respond(cfg, uri, o.reply)
                && (o.reply == Answer(true) ==> resp == Conflict)
                && (o.reply == Answer(false) ==> resp == Redirect(cfg.prefix + uri))
                && (o.reply == Unavailable ==> resp == if cfg.failOpen then Redirect(cfg.prefix + uri) else ServerError)
                && duplicate == old(duplicate) + (if o.reply == Answer(true) then 1 else 0)
                && allowed == old(allowed) + (if o.reply == Answer(false) then 1 else 0)
                && error == old(error) + (if o.reply == Unavailable then 1 else 0)
                && store.misses == old(store.misses) + (if o.missed then 1 else 0)
                && store.hits == old(store.hits) + (if o.missed then 0 else 1)
    {
      var key, n, ok := Fingerprints.StreamingRedisKey(pool, sha, verb, uri, body);
      assert Valid() && store.View() == old(store.View());
      if ok {
        resp := Check(Key(key), uri, t, network);
      } else {
        resp := Reject(uri);
      }
    }

    /** The excluded-method branch of Handle. */
    method Skip(uri: Bytes) returns (resp: Response)
      requires Valid()
      modifies this
      ensures Valid() && requests == old(requests) + 1
      ensures resp == Redirect(cfg.prefix + uri) && excluded == old(excluded) + 1
      ensures duplicate == old(duplicate) && allowed == old(allowed) && error == old(error)
    {
      requests := requests + 1;
      excluded := excluded + 1;
      resp := Allow(uri);
    }

    /** The branch of Handle for a body that could not be read. */
    method Reject(uri: Bytes) returns (resp: Response)
      requires Valid()
      modifies this
      ensures Valid() && requests == old(requests) + 1
      ensures resp == (if cfg.failOpen then Redirect(cfg.prefix + uri) else ServerError) && error == old(error) + 1
      ensures excluded == old(excluded) && duplicate == old(duplicate) && allowed == old(allowed)
    {
      requests := requests + 1;
      error := error + 1;
      unreadable := unreadable + 1;
      resp := HandleStoreErr(uri);
    }
  }
}
